/// Runs of the engine's step system that put a frame of one raster in the way
/// of an output opened at another.
module FormatChangeRuns {
  import opened Basics
  import opened FormatChange

  /// A run without its marks.
  ghost function Path(s: State, steps: seq<Step>): Option<State>
    decreases |steps|
  {
    if steps == [] then Some(s)
    else match Base(s, steps[0])
         case None => None
         case Some(s') => Path(s', steps[1..])
  }

  /// No step looks at the mark.
  lemma MarkIgnored(s: State, step: Step, b: bool)
    ensures Base(s, step).None? ==> Base(s.(slipped := b), step).None?
    ensures Base(s, step).Some? ==> Base(s.(slipped := b), step) == Some(Base(s, step).value.(slipped := b))
  {
    match step {
      case ControlEnter | ControlBusy | ControlRun(_, _) => MarkIgnoredInGate(s, step, b);
      case ControlParked | ControlTimeout => MarkIgnoredInSwap(s, step, b);
      case ControlNext => if FormatPhase(s.control) { MarkIgnoredInSwap(s, step, b); } else { MarkIgnoredAtFinish(s, b); }
      case ClockCheck | ClockWake | ClockRead(_) | ClockPlan(_) | ClockEnter | ClockSkip | ClockSubmit
         | ClockEndTick | ReportEnter(_) | ReportLeave(_) => MarkIgnoredByClock(s, step, b);
      case ReadPrevious(_) | GiveUp(_) | StartFormat(_, _, _) | StartEnable(_, _) | StartAdd(_, _, _)
         | StartUpdate(_, _, _) | UpdateAssign | StartRemove(_) => MarkIgnoredAtStart(s, step, b);
    }
  }

  lemma MarkIgnoredByClock(s: State, step: Step, b: bool)
    ensures ClockStep(s.(slipped := b), step)
         == if ClockStep(s, step).None? then None else Some(ClockStep(s, step).value.(slipped := b))
  {
  }

  lemma MarkIgnoredAtStart(s: State, step: Step, b: bool)
    ensures StartStep(s.(slipped := b), step)
         == if StartStep(s, step).None? then None else Some(StartStep(s, step).value.(slipped := b))
  {
  }

  lemma MarkIgnoredInGate(s: State, step: Step, b: bool)
    ensures GateStep(s.(slipped := b), step)
         == if GateStep(s, step).None? then None else Some(GateStep(s, step).value.(slipped := b))
  {
    assert Wanted(s.(slipped := b)) == Wanted(s);
  }

  lemma MarkIgnoredInSwap(s: State, step: Step, b: bool)
    ensures SwapStep(s.(slipped := b), step)
         == if SwapStep(s, step).None? then None else Some(SwapStep(s, step).value.(slipped := b))
  {
  }

  lemma MarkIgnoredAtFinish(s: State, b: bool)
    ensures FinishStep(s.(slipped := b))
         == if FinishStep(s).None? then None else Some(FinishStep(s).value.(slipped := b))
  {
  }

  lemma {:induction false} PathIsRun(s: State, b: bool, steps: seq<Step>)
    requires Path(s, steps).Some?
    ensures Run(s.(slipped := b), steps).Some?
    ensures Run(s.(slipped := b), steps).value.submitted == Path(s, steps).value.submitted
    decreases |steps|
  {
    if steps != [] {
      var marked := Mark(s.(slipped := b), steps[0]);
      MarkIgnored(s, steps[0], marked.slipped);
      PathIsRun(Base(s, steps[0]).value, marked.slipped, steps[1..]);
    }
  }

  /// An engine with one output, "a".
  function Solo(format: Format, requested: bool, clock: Clock, control: Control, waiting: seq<(Format, Format)>,
                openedAt: Format, on: bool, gate: Gate): State {
    State(format, format, requested, clock.Parked?, clock, control, waiting,
          [Slot(Some(Output(Bgra, true, on, openedAt)), 1, gate)],
          map["a" := Entry(0, Desc(1, true, Bgra), on && gate.Free? && control.Idle?)], [], false)
  }

  lemma {:induction false} PathAppend(s: State, xs: seq<Step>, mid: State, ys: seq<Step>)
    requires Path(s, xs) == Some(mid)
    ensures Path(s, xs + ys) == Path(mid, ys)
    decreases |xs|
  {
    if xs == [] {
      assert xs + ys == ys;
    } else {
      assert (xs + ys)[1..] == xs[1..] + ys;
      PathAppend(Base(s, xs[0]).value, xs[1..], mid, ys);
    }
  }

  lemma PathTwo(s: State, a: Step, s1: State, b: Step, s2: State)
    requires Base(s, a) == Some(s1) && Base(s1, b) == Some(s2)
    ensures Path(s, [a, b]) == Some(s2)
  {
    assert [a, b][1..] == [b];
    assert Path(s1, [b]) == Path(s2, [b][1..]);
  }

  /// Steps 0 and 1: taken off the queue, the output switched off and its gate had.
  lemma SoloEnters(f: Format, clock: Clock, next: Format, previous: Format, rest: seq<(Format, Format)>)
    ensures Path(Solo(f, false, clock, Idle, [(next, previous)] + rest, f, true, Free),
                [StartFormat(0, false, ["a"]), ControlEnter])
         == Some(Solo(f, false, clock, Stopping(next, previous, [Item("a", 0, true, false, false)], 0, true),
                      rest, f, true, ByControl))
  {
    var item := Item("a", 0, true, false, false);
    var s := Solo(f, false, clock, Idle, [(next, previous)] + rest, f, true, Free);
    var s1 := Solo(f, false, clock, Stopping(next, previous, [item], 0, false), rest, f, true, Free);
    var s2 := Solo(f, false, clock, Stopping(next, previous, [item], 0, true), rest, f, true, ByControl);
    SoloStarts(f, clock, next, previous, rest);
    SoloHasGate(f, clock, next, previous, rest);
    PathTwo(s, StartFormat(0, false, ["a"]), s1, ControlEnter, s2);
  }

  lemma SoloHasGate(f: Format, clock: Clock, next: Format, previous: Format, rest: seq<(Format, Format)>)
    ensures Base(Solo(f, false, clock, Stopping(next, previous, [Item("a", 0, true, false, false)], 0, false), rest, f, true, Free), ControlEnter)
         == Some(Solo(f, false, clock, Stopping(next, previous, [Item("a", 0, true, false, false)], 0, true), rest, f, true, ByControl))
  {
    var s1 := Solo(f, false, clock, Stopping(next, previous, [Item("a", 0, true, false, false)], 0, false), rest, f, true, Free);
    assert s1.slots[0 := s1.slots[0].(gate := ByControl)]
        == Solo(f, false, clock, Stopping(next, previous, [Item("a", 0, true, false, false)], 0, true), rest, f, true, ByControl).slots;
  }

  lemma SoloStarts(f: Format, clock: Clock, next: Format, previous: Format, rest: seq<(Format, Format)>)
    ensures Base(Solo(f, false, clock, Idle, [(next, previous)] + rest, f, true, Free), StartFormat(0, false, ["a"]))
         == Some(Solo(f, false, clock, Stopping(next, previous, [Item("a", 0, true, false, false)], 0, false), rest, f, true, Free))
  {
    var item := Item("a", 0, true, false, false);
    var s := Solo(f, false, clock, Idle, [(next, previous)] + rest, f, true, Free);
    var s1 := Solo(f, false, clock, Stopping(next, previous, [item], 0, false), rest, f, true, Free);
    assert s.waiting[..0] + s.waiting[1..] == rest;
    assert Items(s.outputs, ["a"]) == [item] by { assert Items(s.outputs, ["a"])[0] == item; }
    assert DisableAll(s.outputs) == s1.outputs;
  }

  lemma SoloStops(f: Format, clock: Clock, next: Format, previous: Format, rest: seq<(Format, Format)>)
    ensures Path(Solo(f, false, clock, Stopping(next, previous, [Item("a", 0, true, false, false)], 0, true),
                     rest, f, true, ByControl),
                [ControlRun(true, None), ControlNext])
         == Some(Solo(f, true, clock, Awaiting(next, previous, [Item("a", 0, true, true, false)]),
                      rest, f, false, Free))
  {
    var before, after := Item("a", 0, true, false, false), Item("a", 0, true, true, false);
    var s := Solo(f, false, clock, Stopping(next, previous, [before], 0, true), rest, f, true, ByControl);
    var s1 := Solo(f, false, clock, Stopping(next, previous, [after], 1, false), rest, f, false, Free);
    var s2 := Solo(f, true, clock, Awaiting(next, previous, [after]), rest, f, false, Free);
    assert [before][0 := after] == [after];
    assert s.slots[0 := s1.slots[0]] == s1.slots;
    assert s.outputs == s1.outputs;
    assert Base(s, ControlRun(true, None)) == Some(s1);
    assert Base(s1, ControlNext) == Some(s2);
    PathTwo(s, ControlRun(true, None), s1, ControlNext, s2);
  }

  /// The clock parks and the raster is swapped.
  lemma SoloSwaps(f: Format, next: Format, previous: Format, rest: seq<(Format, Format)>, items: seq<Item>)
    ensures Path(Solo(f, true, Checking, Awaiting(next, previous, items), rest, f, false, Free),
                [ClockCheck, ControlParked] + [ControlNext, ControlNext])
         == Some(Solo(next, false, Parked, Reopening(next, items, 0, false), rest, f, false, Free))
  {
    var s := Solo(f, true, Checking, Awaiting(next, previous, items), rest, f, false, Free);
    var s1 := s.(clock := Parked, paused := true);
    var s2 := s1.(format := next, control := Swapped(next, items));
    var s3 := s2.(pool := next, control := Resuming(next, items));
    var s4 := s3.(pauseRequested := false, control := Reopening(next, items, 0, false));
    PathTwo(s, ClockCheck, s1, ControlParked, s2);
    PathAppend(s, [ClockCheck, ControlParked], s2, [ControlNext, ControlNext]);
    PathTwo(s2, ControlNext, s3, ControlNext, s4);
  }

  /// The clock does not park: the outputs go back on at `previous`.
  lemma SoloTimesOut(f: Format, clock: Clock, next: Format, previous: Format, items: seq<Item>)
    requires !clock.Parked?
    ensures Path(Solo(f, true, clock, Awaiting(next, previous, items), [], f, false, Free), [ControlTimeout, ControlNext])
         == Some(Solo(f, false, clock, Reopening(previous, items, 0, false), [], f, false, Free))
  {
    var s := Solo(f, true, clock, Awaiting(next, previous, items), [], f, false, Free);
    var s1 := s.(control := Resuming(previous, items));
    var s2 := s1.(pauseRequested := false, control := Reopening(previous, items, 0, false));
    PathTwo(s, ControlTimeout, s1, ControlNext, s2);
  }

  lemma SoloIsStarted(f: Format, clock: Clock, openAt: Format, was: Format, rest: seq<(Format, Format)>)
    ensures Base(Solo(f, false, clock, Reopening(openAt, [Item("a", 0, true, true, false)], 0, true), rest, was, false, ByControl),
                 ControlRun(true, None))
         == Some(Solo(f, false, clock, Reopening(openAt, [Item("a", 0, true, true, true)], 1, false), rest, openAt, true, Free))
  {
    var before, after := Item("a", 0, true, true, false), Item("a", 0, true, true, true);
    var s1 := Solo(f, false, clock, Reopening(openAt, [before], 0, true), rest, was, false, ByControl);
    var s2 := Solo(f, false, clock, Reopening(openAt, [after], 1, false), rest, openAt, true, Free);
    assert [before][0 := after] == [after];
    assert s1.slots[0 := s2.slots[0]] == s2.slots && s1.outputs == s2.outputs;
  }

  /// The output reopens where it is told,
  lemma SoloOpens(f: Format, clock: Clock, openAt: Format, was: Format, rest: seq<(Format, Format)>)
    ensures Path(Solo(f, false, clock, Reopening(openAt, [Item("a", 0, true, true, false)], 0, false),
                     rest, was, false, Free),
                [ControlEnter, ControlRun(true, None)])
         == Some(Solo(f, false, clock, Reopening(openAt, [Item("a", 0, true, true, true)], 1, false),
                      rest, openAt, true, Free))
  {
    var before, after := Item("a", 0, true, true, false), Item("a", 0, true, true, true);
    var s := Solo(f, false, clock, Reopening(openAt, [before], 0, false), rest, was, false, Free);
    var s1 := Solo(f, false, clock, Reopening(openAt, [before], 0, true), rest, was, false, ByControl);
    var s2 := Solo(f, false, clock, Reopening(openAt, [after], 1, false), rest, openAt, true, Free);
    assert s.slots[0 := s1.slots[0]] == s1.slots && s.outputs == s1.outputs;
    assert Base(s, ControlEnter) == Some(s1);
    SoloIsStarted(f, clock, openAt, was, rest);
    PathTwo(s, ControlEnter, s1, ControlRun(true, None), s2);
  }

  /// and is fed again.
  lemma SoloFeeds(f: Format, clock: Clock, openAt: Format, rest: seq<(Format, Format)>)
    ensures Path(Solo(f, false, clock, Reopening(openAt, [Item("a", 0, true, true, true)], 1, false),
                     rest, openAt, true, Free), [ControlNext])
         == Some(Solo(f, false, clock, Idle, rest, openAt, true, Free))
  {
    var after := Item("a", 0, true, true, true);
    var s2 := Solo(f, false, clock, Reopening(openAt, [after], 1, false), rest, openAt, true, Free);
    var s3 := Solo(f, false, clock, Idle, rest, openAt, true, Free);
    assert Feed(s2.outputs, [after]) == s3.outputs by {
      assert [after][1..] == [];
      assert SetEnabled(s2.outputs, "a", true) == s3.outputs;
    }
    assert Base(s2, ControlNext) == Some(s3);
    assert [ControlNext][1..] == [];
  }

  lemma SoloReopens(f: Format, clock: Clock, openAt: Format, was: Format, rest: seq<(Format, Format)>)
    ensures Path(Solo(f, false, clock, Reopening(openAt, [Item("a", 0, true, true, false)], 0, false),
                     rest, was, false, Free),
                [ControlEnter, ControlRun(true, None)] + [ControlNext])
         == Some(Solo(f, false, clock, Idle, rest, openAt, true, Free))
  {
    var s := Solo(f, false, clock, Reopening(openAt, [Item("a", 0, true, true, false)], 0, false), rest, was, false, Free);
    var s2 := Solo(f, false, clock, Reopening(openAt, [Item("a", 0, true, true, true)], 1, false), rest, openAt, true, Free);
    SoloOpens(f, clock, openAt, was, rest);
    PathAppend(s, [ControlEnter, ControlRun(true, None)], s2, [ControlNext]);
    SoloFeeds(f, clock, openAt, rest);
  }

  /// The next tick is planned from the engine's format, and submitted.
  lemma SoloSubmits(f: Format, openedAt: Format)
    ensures var end := Path(Solo(f, false, Reading, Idle, [], openedAt, true, Free),
                           [ClockRead(f), ClockPlan(["a"])] + [ClockEnter, ClockSubmit]);
            end.Some? && end.value.submitted == [Submission(f, Bgra, Output(Bgra, true, true, openedAt), f)]
  {
    var s := Solo(f, false, Reading, Idle, [], openedAt, true, Free);
    var target := Target(0, Desc(1, true, Bgra));
    var s1 := s.(clock := Framed(f));
    var s2 := s.(clock := Calling(f, [target], 0));
    assert Plan(s.outputs, ["a"]) == [target] by { assert Plan(s.outputs, ["a"])[0] == target; }
    assert "a" in ["a"] && IsPlan(s.outputs, ["a"]);
    PathTwo(s, ClockRead(f), s1, ClockPlan(["a"]), s2);
    PathAppend(s, [ClockRead(f), ClockPlan(["a"])], s2, [ClockEnter, ClockSubmit]);
    var s3 := Base(s2, ClockEnter).value;
    var s4 := Base(s3, ClockSubmit).value;
    PathTwo(s2, ClockEnter, s3, ClockSubmit, s4);
  }

  /// The clock parks, the raster is swapped, the output reopens and the clock
  /// wakes.
  function FirstChangeTail(): seq<Step> {
    ([ClockCheck, ControlParked] + [ControlNext, ControlNext]) + (([ControlEnter, ControlRun(true, None)] + [ControlNext]) + [ClockWake])
  }

  function FirstChange(): seq<Step> {
    [StartFormat(0, false, ["a"]), ControlEnter] + ([ControlRun(true, None), ControlNext] + FirstChangeTail())
  }

  function SecondChange(): seq<Step> {
    [StartFormat(0, false, ["a"]), ControlEnter] + ([ControlRun(true, None), ControlNext]
      + ([ControlTimeout, ControlNext] + ([ControlEnter, ControlRun(true, None)] + [ControlNext])))
  }

  lemma FirstChangeStops()
    ensures Path(Solo(0, false, Checking, Idle, [(1, 0)] + [(2, 0)], 0, true, Free), FirstChange())
         == Path(Solo(0, true, Checking, Awaiting(1, 0, [Item("a", 0, true, true, false)]), [(2, 0)], 0, false, Free),
                FirstChangeTail())
  {
    var s := Solo(0, false, Checking, Idle, [(1, 0)] + [(2, 0)], 0, true, Free);
    SoloEnters(0, Checking, 1, 0, [(2, 0)]);
    var s1 := Path(s, [StartFormat(0, false, ["a"]), ControlEnter]).value;
    PathAppend(s, [StartFormat(0, false, ["a"]), ControlEnter], s1, [ControlRun(true, None), ControlNext] + FirstChangeTail());
    SoloStops(0, Checking, 1, 0, [(2, 0)]);
    var s2 := Path(s1, [ControlRun(true, None), ControlNext]).value;
    PathAppend(s1, [ControlRun(true, None), ControlNext], s2, FirstChangeTail());
  }

  lemma FirstChangeResumes()
    ensures Path(Solo(0, true, Checking, Awaiting(1, 0, [Item("a", 0, true, true, false)]), [(2, 0)], 0, false, Free),
                FirstChangeTail())
         == Path(Solo(1, false, Parked, Idle, [(2, 0)], 1, true, Free), [ClockWake])
  {
    var item := Item("a", 0, true, true, false);
    var s2 := Solo(0, true, Checking, Awaiting(1, 0, [item]), [(2, 0)], 0, false, Free);
    SoloSwaps(0, 1, 0, [(2, 0)], [item]);
    var s3 := Path(s2, [ClockCheck, ControlParked] + [ControlNext, ControlNext]).value;
    PathAppend(s2, [ClockCheck, ControlParked] + [ControlNext, ControlNext], s3,
              ([ControlEnter, ControlRun(true, None)] + [ControlNext]) + [ClockWake]);
    SoloReopens(1, Parked, 1, 0, [(2, 0)]);
    var s4 := Path(s3, [ControlEnter, ControlRun(true, None)] + [ControlNext]).value;
    PathAppend(s3, [ControlEnter, ControlRun(true, None)] + [ControlNext], s4, [ClockWake]);
  }

  lemma FirstChangeRuns()
    ensures Path(Solo(0, false, Checking, Idle, [(1, 0), (2, 0)], 0, true, Free), FirstChange())
         == Some(Solo(1, false, Reading, Idle, [(2, 0)], 1, true, Free))
  {
    assert [(1, 0), (2, 0)] == [(1, 0)] + [(2, 0)];
    FirstChangeStops();
    FirstChangeResumes();
    var s4 := Solo(1, false, Parked, Idle, [(2, 0)], 1, true, Free);
    assert [ClockWake][1..] == [];
    assert Path(Base(s4, ClockWake).value, []) == Base(s4, ClockWake);
  }

  lemma SecondChangeRuns()
    ensures Path(Solo(1, false, Reading, Idle, [(2, 0)], 1, true, Free), SecondChange())
         == Some(Solo(1, false, Reading, Idle, [], 0, true, Free))
  {
    var item := Item("a", 0, true, true, false);
    var s := Solo(1, false, Reading, Idle, [(2, 0)] + [], 1, true, Free);
    assert [(2, 0)] + [] == [(2, 0)];
    SoloEnters(1, Reading, 2, 0, []);
    var s1 := Path(s, [StartFormat(0, false, ["a"]), ControlEnter]).value;
    PathAppend(s, [StartFormat(0, false, ["a"]), ControlEnter], s1, SecondChange()[2..]);
    SoloStops(1, Reading, 2, 0, []);
    var s2 := Path(s1, [ControlRun(true, None), ControlNext]).value;
    PathAppend(s1, [ControlRun(true, None), ControlNext], s2, SecondChange()[4..]);
    SoloTimesOut(1, Reading, 2, 0, [item]);
    var s3 := Path(s2, [ControlTimeout, ControlNext]).value;
    PathAppend(s2, [ControlTimeout, ControlNext], s3, SecondChange()[6..]);
    SoloReopens(1, Reading, 0, 1, []);
  }

  /// One output open and fed at format 0 and two format changes asked for at
  /// once; a frame of format 1 reaches the output while it is open at 0.
  lemma StalePreviousBreaksIt()
    ensures var start := Solo(0, false, Checking, Idle, [], 0, true, Free);
            var steps := [ReadPrevious(1), ReadPrevious(2)] + (FirstChange() + (SecondChange()
                         + ([ClockRead(1), ClockPlan(["a"])] + [ClockEnter, ClockSubmit])));
            Fresh(start) && Run(start, steps).Some?
            && Run(start, steps).value.submitted == [Submission(1, Bgra, Output(Bgra, true, true, 0), 1)]
  {
    var s := Solo(0, false, Checking, Idle, [], 0, true, Free);
    var s2 := Solo(0, false, Checking, Idle, [(1, 0), (2, 0)], 0, true, Free);
    var tick := [ClockRead(1), ClockPlan(["a"])] + [ClockEnter, ClockSubmit];
    assert [] + [(1, 0)] == [(1, 0)] && [(1, 0)] + [(2, 0)] == [(1, 0), (2, 0)];
    PathTwo(s, ReadPrevious(1), s.(waiting := [(1, 0)]), ReadPrevious(2), s2);
    PathAppend(s, [ReadPrevious(1), ReadPrevious(2)], s2, FirstChange() + (SecondChange() + tick));
    FirstChangeRuns();
    var s3 := Solo(1, false, Reading, Idle, [(2, 0)], 1, true, Free);
    PathAppend(s2, FirstChange(), s3, SecondChange() + tick);
    SecondChangeRuns();
    PathAppend(s3, SecondChange(), Solo(1, false, Reading, Idle, [], 0, true, Free), tick);
    SoloSubmits(1, 0);
    PathIsRun(s, false, [ReadPrevious(1), ReadPrevious(2)] + (FirstChange() + (SecondChange() + tick)));
  }

  // The promise broken again: an output whose stop is refused during a change
  // stays open at the old raster, and a request to enable it finds it running.

  /// An engine with one output, "a", open at format 0, that start() does not
  /// open again.
  function Lone(format: Format, clock: Clock, control: Control, gate: Gate, on: bool): State {
    State(format, format, false, clock.Parked?, clock, control, [],
          [Slot(Some(Output(Bgra, false, true, 0)), 1, gate)],
          map["a" := Entry(0, Desc(1, true, Bgra), on)], [], false)
  }

  function LoneItem(): Item { Item("a", 0, true, false, false) }

  // A report is in the gate when the change wants to stop the output.

  function RefusedSteps(): seq<Step> {
    [ReportEnter(0), ReadPrevious(1)] + [StartFormat(0, false, ["a"]), ControlBusy]
  }

  lemma ReportIsInside()
    ensures Path(Lone(0, Checking, Idle, Free, true), [ReportEnter(0), ReadPrevious(1)])
         == Some(Lone(0, Checking, Idle, ByReport, true).(waiting := [(1, 0)]))
  {
    var s0, s1 := Lone(0, Checking, Idle, Free, true), Lone(0, Checking, Idle, ByReport, true);
    assert s0.slots[0 := s1.slots[0]] == s1.slots;
    assert [] + [(1, 0)] == [(1, 0)];
    PathTwo(s0, ReportEnter(0), s1, ReadPrevious(1), s1.(waiting := [(1, 0)]));
  }

  lemma LoneStarts()
    ensures Base(Lone(0, Checking, Idle, ByReport, true).(waiting := [(1, 0)]), StartFormat(0, false, ["a"]))
         == Some(Lone(0, Checking, Stopping(1, 0, [LoneItem()], 0, false), ByReport, false))
  {
    var s2 := Lone(0, Checking, Idle, ByReport, true).(waiting := [(1, 0)]);
    assert s2.waiting[..0] + s2.waiting[1..] == [];
    assert Items(s2.outputs, ["a"]) == [LoneItem()] by { assert Items(s2.outputs, ["a"])[0] == LoneItem(); }
    assert DisableAll(s2.outputs) == Lone(0, Checking, Idle, ByReport, false).outputs;
  }

  lemma LoneIsBusy()
    ensures Base(Lone(0, Checking, Stopping(1, 0, [LoneItem()], 0, false), ByReport, false), ControlBusy)
         == Some(Lone(0, Checking, Stopping(1, 0, [LoneItem()], 1, false), ByReport, false))
  {
    assert [LoneItem()][0 := LoneItem()] == [LoneItem()];
  }

  lemma StopIsRefused()
    ensures Path(Lone(0, Checking, Idle, ByReport, true).(waiting := [(1, 0)]), [StartFormat(0, false, ["a"]), ControlBusy])
         == Some(Lone(0, Checking, Stopping(1, 0, [LoneItem()], 1, false), ByReport, false))
  {
    var s2 := Lone(0, Checking, Idle, ByReport, true).(waiting := [(1, 0)]);
    var s3 := Lone(0, Checking, Stopping(1, 0, [LoneItem()], 0, false), ByReport, false);
    var s4 := Lone(0, Checking, Stopping(1, 0, [LoneItem()], 1, false), ByReport, false);
    LoneStarts();
    LoneIsBusy();
    PathTwo(s2, StartFormat(0, false, ["a"]), s3, ControlBusy, s4);
  }

  // The clock parks, the raster is swapped and the output is passed over.

  function SkippedSteps(): seq<Step> {
    ([ControlNext, ClockCheck] + [ControlParked, ControlNext]) + ([ControlNext, ControlNext] + [ControlNext, ReportLeave(0)])
  }

  lemma ClockParks()
    ensures Path(Lone(0, Checking, Stopping(1, 0, [LoneItem()], 1, false), ByReport, false),
                 [ControlNext, ClockCheck] + [ControlParked, ControlNext])
         == Some(Lone(1, Parked, Resuming(1, [LoneItem()]), ByReport, false).(pauseRequested := true))
  {
    var items := [LoneItem()];
    var s0 := Lone(0, Checking, Stopping(1, 0, items, 1, false), ByReport, false);
    var s1 := s0.(pauseRequested := true, control := Awaiting(1, 0, items));
    var s2 := s1.(clock := Parked, paused := true);
    var s3 := s2.(format := 1, control := Swapped(1, items));
    var s4 := s3.(pool := 1, control := Resuming(1, items));
    PathTwo(s0, ControlNext, s1, ClockCheck, s2);
    PathAppend(s0, [ControlNext, ClockCheck], s2, [ControlParked, ControlNext]);
    PathTwo(s2, ControlParked, s3, ControlNext, s4);
  }

  lemma OutputIsSkipped()
    ensures Path(Lone(1, Parked, Resuming(1, [LoneItem()]), ByReport, false).(pauseRequested := true),
                 [ControlNext, ControlNext] + [ControlNext, ReportLeave(0)])
         == Some(Lone(1, Parked, Idle, Free, false))
  {
    var items := [LoneItem()];
    var s4 := Lone(1, Parked, Resuming(1, items), ByReport, false).(pauseRequested := true);
    var s5 := Lone(1, Parked, Reopening(1, items, 0, false), ByReport, false);
    var s6 := Lone(1, Parked, Reopening(1, items, 1, false), ByReport, false);
    PathTwo(s4, ControlNext, s5, ControlNext, s6);
    PathAppend(s4, [ControlNext, ControlNext], s6, [ControlNext, ReportLeave(0)]);
    NothingIsFed();
  }

  lemma NothingIsFed()
    ensures Path(Lone(1, Parked, Reopening(1, [LoneItem()], 1, false), ByReport, false), [ControlNext, ReportLeave(0)])
         == Some(Lone(1, Parked, Idle, Free, false))
  {
    var items := [LoneItem()];
    var s6 := Lone(1, Parked, Reopening(1, items, 1, false), ByReport, false);
    var s7, s8 := Lone(1, Parked, Idle, ByReport, false), Lone(1, Parked, Idle, Free, false);
    assert Feed(s6.outputs, items) == s6.outputs by { assert items[1..] == []; }
    assert s7.slots[0 := s8.slots[0]] == s8.slots;
    PathTwo(s6, ControlNext, s7, ReportLeave(0), s8);
  }

  // The output is enabled as it is, still open at format 0.

  function EnabledSteps(): seq<Step> {
    [StartEnable("a", true), ControlEnter] + [ControlRun(true, None), ControlNext]
  }

  lemma EnableEnters()
    ensures Path(Lone(1, Parked, Idle, Free, false), [StartEnable("a", true), ControlEnter])
         == Some(Lone(1, Parked, Enabling("a", true, 1, false, true), ByControl, false))
  {
    var s0 := Lone(1, Parked, Idle, Free, false);
    var s1 := Lone(1, Parked, Enabling("a", true, 1, false, false), Free, false);
    var s2 := Lone(1, Parked, Enabling("a", true, 1, false, true), ByControl, false);
    assert s1.slots[0 := s2.slots[0]] == s2.slots;
    PathTwo(s0, StartEnable("a", true), s1, ControlEnter, s2);
  }

  lemma LeftOpenIsEnabled()
    ensures Path(Lone(1, Parked, Enabling("a", true, 1, false, true), ByControl, false), [ControlRun(true, None), ControlNext])
         == Some(Lone(1, Parked, Idle, Free, true))
  {
    var s2 := Lone(1, Parked, Enabling("a", true, 1, false, true), ByControl, false);
    var s3 := Lone(1, Parked, EnableDone("a", true, false, Ran(true)), Free, false);
    var s4 := Lone(1, Parked, Idle, Free, true);
    StartLeavesItOpen();
    EnableEnds();
    PathTwo(s2, ControlRun(true, None), s3, ControlNext, s4);
  }

  lemma EnableEnds()
    ensures Base(Lone(1, Parked, EnableDone("a", true, false, Ran(true)), Free, false), ControlNext)
         == Some(Lone(1, Parked, Idle, Free, true))
  {
    var s3 := Lone(1, Parked, EnableDone("a", true, false, Ran(true)), Free, false);
    assert SetEnabled(s3.outputs, "a", true) == Lone(1, Parked, Idle, Free, true).outputs;
  }

  lemma StartLeavesItOpen()
    ensures Base(Lone(1, Parked, Enabling("a", true, 1, false, true), ByControl, false), ControlRun(true, None))
         == Some(Lone(1, Parked, EnableDone("a", true, false, Ran(true)), Free, false))
  {
    var s2 := Lone(1, Parked, Enabling("a", true, 1, false, true), ByControl, false);
    var s3 := Lone(1, Parked, EnableDone("a", true, false, Ran(true)), Free, false);
    assert s2.slots[0 := s3.slots[0]] == s3.slots;
  }

  // The next tick calls it.

  function TickSteps(): seq<Step> {
    [ClockWake, ClockRead(1)] + [ClockPlan(["a"]), ClockEnter] + [ClockSubmit]
  }

  lemma LoneIsPlanned()
    ensures Path(Lone(1, Parked, Idle, Free, true), [ClockWake, ClockRead(1)] + [ClockPlan(["a"]), ClockEnter])
         == Some(Lone(1, Submitting(1, [Target(0, Desc(1, true, Bgra))], 0), Idle, ByClock, true))
  {
    var target := Target(0, Desc(1, true, Bgra));
    var s0, s1 := Lone(1, Parked, Idle, Free, true), Lone(1, Reading, Idle, Free, true);
    var s2, s3 := Lone(1, Framed(1), Idle, Free, true), Lone(1, Calling(1, [target], 0), Idle, Free, true);
    var s4 := Lone(1, Submitting(1, [target], 0), Idle, ByClock, true);
    PathTwo(s0, ClockWake, s1, ClockRead(1), s2);
    PathAppend(s0, [ClockWake, ClockRead(1)], s2, [ClockPlan(["a"]), ClockEnter]);
    assert Plan(s2.outputs, ["a"]) == [target] by { assert Plan(s2.outputs, ["a"])[0] == target; }
    assert "a" in ["a"] && IsPlan(s2.outputs, ["a"]);
    assert s3.slots[0 := s4.slots[0]] == s4.slots;
    PathTwo(s2, ClockPlan(["a"]), s3, ClockEnter, s4);
  }

  lemma LoneSubmits()
    ensures var end := Path(Lone(1, Parked, Idle, Free, true), TickSteps());
            end.Some? && end.value.submitted == [Submission(1, Bgra, Output(Bgra, false, true, 0), 1)]
  {
    var s4 := Lone(1, Submitting(1, [Target(0, Desc(1, true, Bgra))], 0), Idle, ByClock, true);
    LoneIsPlanned();
    PathAppend(Lone(1, Parked, Idle, Free, true), [ClockWake, ClockRead(1)] + [ClockPlan(["a"]), ClockEnter], s4, [ClockSubmit]);
    assert [ClockSubmit][1..] == [];
    assert Path(Base(s4, ClockSubmit).value, []) == Base(s4, ClockSubmit);
  }

  lemma RefusedThenSkipped()
    ensures Path(Lone(0, Checking, Idle, Free, true), RefusedSteps() + SkippedSteps()) == Some(Lone(1, Parked, Idle, Free, false))
  {
    var s0 := Lone(0, Checking, Idle, Free, true);
    var s1 := Lone(0, Checking, Idle, ByReport, true).(waiting := [(1, 0)]);
    var s2 := Lone(0, Checking, Stopping(1, 0, [LoneItem()], 1, false), ByReport, false);
    var s3 := Lone(1, Parked, Resuming(1, [LoneItem()]), ByReport, false).(pauseRequested := true);
    ReportIsInside();
    StopIsRefused();
    ClockParks();
    OutputIsSkipped();
    PathAppend(s0, [ReportEnter(0), ReadPrevious(1)], s1, [StartFormat(0, false, ["a"]), ControlBusy]);
    PathAppend(s0, RefusedSteps(), s2, SkippedSteps());
    PathAppend(s2, [ControlNext, ClockCheck] + [ControlParked, ControlNext], s3,
               [ControlNext, ControlNext] + [ControlNext, ReportLeave(0)]);
  }

  lemma EnabledThenSubmits()
    ensures var end := Path(Lone(1, Parked, Idle, Free, false), EnabledSteps() + TickSteps());
            end.Some? && end.value.submitted == [Submission(1, Bgra, Output(Bgra, false, true, 0), 1)]
  {
    var s0 := Lone(1, Parked, Idle, Free, false);
    var s1 := Lone(1, Parked, Enabling("a", true, 1, false, true), ByControl, false);
    EnableEnters();
    LeftOpenIsEnabled();
    LoneSubmits();
    PathAppend(s0, [StartEnable("a", true), ControlEnter], s1, [ControlRun(true, None), ControlNext]);
    PathAppend(s0, EnabledSteps(), Lone(1, Parked, Idle, Free, true), TickSteps());
  }

  /// One output that start() does not reopen, fed and open at format 0. Its gate
  /// is busy when a format change wants to stop it, so the change passes it
  /// over; enabling it then succeeds, and a frame of format 1 reaches it while
  /// it is open at 0. The clock parked when it was asked to.
  lemma LeftOpenIsFedWrong()
    ensures var start := Lone(0, Checking, Idle, Free, true);
            var steps := (RefusedSteps() + SkippedSteps()) + (EnabledSteps() + TickSteps());
            Fresh(start) && Run(start, steps).Some?
            && Run(start, steps).value.submitted == [Submission(1, Bgra, Output(Bgra, false, true, 0), 1)]
  {
    RefusedThenSkipped();
    EnabledThenSubmits();
    LoneRuns(RefusedSteps() + SkippedSteps(), EnabledSteps() + TickSteps());
  }

  lemma LoneRuns(xs: seq<Step>, ys: seq<Step>)
    requires Path(Lone(0, Checking, Idle, Free, true), xs) == Some(Lone(1, Parked, Idle, Free, false))
    requires Path(Lone(1, Parked, Idle, Free, false), ys).Some?
    ensures Run(Lone(0, Checking, Idle, Free, true), xs + ys).Some?
    ensures Run(Lone(0, Checking, Idle, Free, true), xs + ys).value.submitted
         == Path(Lone(1, Parked, Idle, Free, false), ys).value.submitted
  {
    PathAppend(Lone(0, Checking, Idle, Free, true), xs, Lone(1, Parked, Idle, Free, false), ys);
    PathIsRun(Lone(0, Checking, Idle, Free, true), false, xs + ys);
  }
}
