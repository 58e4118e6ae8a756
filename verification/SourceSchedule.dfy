/// When the table of sources hands one entry out twice
/// (src/core/source_table.h:97-158), in terms of the schedule alone: which
/// thread ran which region before which.
module SourceSchedule {
  import opened Basics
  import opened SourceTable

  /// A run from an empty table: the state before each step and after the last.
  ghost predicate IsRun(threads: nat, states: seq<State>, steps: seq<Step>) {
    && |states| == |steps| + 1 && states[0] == Init(threads)
    && forall i :: 0 <= i < |steps| ==> Steps(states, steps, i)
  }

  ghost predicate Steps(states: seq<State>, steps: seq<Step>, i: nat)
    requires i < |steps| && |states| == |steps| + 1
  {
    Valid(states[i]) && Next(states[i], steps[i]) == Some(states[i + 1])
  }

  /// Step `j` is the swap of a takeAll() that takes entry `e`.
  predicate Swaps(states: seq<State>, steps: seq<Step>, e: nat, j: nat)
    requires |states| == |steps| + 1
  {
    j < |steps| && steps[j].TakeAll? && e in states[j].table
  }

  predicate At(s: State, t: nat, pc: Pc) { t < |s.pcs| && s.pcs[t] == pc }

  /// Step `c` is the check, by a removal of `e` in thread `t`, that the entry is
  /// not retired, and the removal has not moved since.
  predicate Checked(states: seq<State>, steps: seq<Step>, e: nat, t: nat, c: nat, k: nat)
    requires |states| == |steps| + 1
  {
    && c < k <= |steps| && steps[c] == Advance(t) && At(states[c], t, RemoveCheck(e))
    && e < |states[c].heap| && !states[c].heap[e].retired
    && (forall i :: c < i <= k ==> At(states[i], t, RemoveErase(e)))
  }

  /// A takeAll() swaps `e` away at `j`, a removal finds `e` not yet retired at
  /// `c`, and erases at `k`, after both.
  predicate Race(states: seq<State>, steps: seq<Step>, e: nat, t: nat, j: nat, c: nat, k: nat)
    requires |states| == |steps| + 1
  {
    k < |steps| && j < k && Swaps(states, steps, e, j) && Checked(states, steps, e, t, c, k) && steps[k] == Advance(t)
  }

  // ------------------------------------------------------------ single steps

  lemma StepMoves(s: State, step: Step)
    requires Valid(s) && Next(s, step).Some?
    ensures var s' := Next(s, step).value;
            && |s'.pcs| == |s.pcs| && step.t < |s.pcs|
            && (forall t :: 0 <= t < |s.pcs| && t != step.t ==> s'.pcs[t] == s.pcs[t])
  {
  }

  lemma StepTakes(s: State, step: Step, e: nat)
    requires Valid(s) && Next(s, step).Some?
    ensures e in Next(s, step).value.taken <==> e in s.taken || (step.TakeAll? && e in s.table)
  {
    if step.TakeAll? {
      assert e in s.table <==> exists i :: 0 <= i < |s.table| && s.table[i] == e;
    }
  }

  lemma StepRaces(s: State, step: Step, e: nat)
    requires Valid(s) && Next(s, step).Some?
    ensures e in Next(s, step).value.raced <==>
              e in s.raced || (step.Advance? && At(s, step.t, RemoveErase(e)) && e !in s.table)
  {
  }

  lemma StepChecks(s: State, step: Step, e: nat)
    requires Valid(s) && Next(s, step).Some? && At(Next(s, step).value, step.t, RemoveErase(e))
    ensures step.Advance? && At(s, step.t, RemoveCheck(e)) && e < |s.heap| && !s.heap[e].retired
  {
  }

  /// A removal about to erase an entry finds it gone exactly when some
  /// takeAll() has taken it.
  lemma GoneIsTaken(s: State, t: nat, e: nat)
    requires Inv(s) && At(s, t, RemoveErase(e))
    ensures e !in s.table <==> e in s.taken
  {
    assert ThreadOk(s, s.pcs[t]) && EntryOk(s, e);
  }

  // -------------------------------------------------------------------- runs

  lemma {:induction false} RunInv(threads: nat, states: seq<State>, steps: seq<Step>, n: nat)
    requires IsRun(threads, states, steps) && n <= |steps|
    ensures Inv(states[n])
    decreases n
  {
    if n == 0 {
      InitHolds(threads);
    } else {
      RunInv(threads, states, steps, n - 1);
      assert Steps(states, steps, n - 1);
      StepKeeps(states[n - 1], steps[n - 1]);
    }
  }

  lemma {:induction false} TakenIff(threads: nat, states: seq<State>, steps: seq<Step>, e: nat, n: nat)
    requires IsRun(threads, states, steps) && n <= |steps|
    ensures e in states[n].taken <==> exists j: nat :: j < n && Swaps(states, steps, e, j)
    decreases n
  {
    if n > 0 {
      TakenIff(threads, states, steps, e, n - 1);
      assert Steps(states, steps, n - 1);
      StepTakes(states[n - 1], steps[n - 1], e);
      assert Swaps(states, steps, e, n - 1) <==> steps[n - 1].TakeAll? && e in states[n - 1].table;
    }
  }

  lemma {:induction false} ErasesChecked(threads: nat, states: seq<State>, steps: seq<Step>, e: nat, t: nat, n: nat)
    requires IsRun(threads, states, steps) && n <= |steps| && At(states[n], t, RemoveErase(e))
    ensures exists c: nat :: Checked(states, steps, e, t, c, n)
    decreases n
  {
    if n > 0 {
      assert Steps(states, steps, n - 1);
      StepMoves(states[n - 1], steps[n - 1]);
      if steps[n - 1].t == t {
        StepChecks(states[n - 1], steps[n - 1], e);
        assert Checked(states, steps, e, t, n - 1, n);
      } else {
        ErasesChecked(threads, states, steps, e, t, n - 1);
        var c: nat :| Checked(states, steps, e, t, c, n - 1);
        assert Checked(states, steps, e, t, c, n);
      }
    }
  }

  /// Step `k` is raced exactly when it ends a race.
  lemma RacesNow(threads: nat, states: seq<State>, steps: seq<Step>, e: nat, k: nat)
    requires IsRun(threads, states, steps) && k < |steps|
    ensures steps[k].Advance? && At(states[k], steps[k].t, RemoveErase(e)) && e !in states[k].table
       <==> exists t: nat, j: nat, c: nat :: Race(states, steps, e, t, j, c, k)
  {
    var t := steps[k].t;
    RunInv(threads, states, steps, k);
    TakenIff(threads, states, steps, e, k);
    if steps[k].Advance? && At(states[k], t, RemoveErase(e)) {
      GoneIsTaken(states[k], t, e);
      ErasesChecked(threads, states, steps, e, t, k);
      var c: nat :| Checked(states, steps, e, t, c, k);
      if e !in states[k].table {
        var j: nat :| j < k && Swaps(states, steps, e, j);
        assert Race(states, steps, e, t, j, c, k);
      }
    }
  }

  lemma {:induction false} RacedIff(threads: nat, states: seq<State>, steps: seq<Step>, e: nat, n: nat)
    requires IsRun(threads, states, steps) && n <= |steps|
    ensures e in states[n].raced <==> exists t: nat, j: nat, c: nat, k: nat :: k < n && Race(states, steps, e, t, j, c, k)
    decreases n
  {
    if n > 0 {
      RacedIff(threads, states, steps, e, n - 1);
      assert Steps(states, steps, n - 1);
      StepRaces(states[n - 1], steps[n - 1], e);
      RacesNow(threads, states, steps, e, n - 1);
    }
  }

  lemma {:induction false} RunIs(threads: nat, states: seq<State>, steps: seq<Step>, n: nat)
    requires IsRun(threads, states, steps) && n <= |steps|
    ensures Run(states[n], steps[n..]) == Some(states[|steps|])
    decreases |steps| - n
  {
    if n < |steps| {
      RunIs(threads, states, steps, n + 1);
      assert Steps(states, steps, n);
      assert steps[n..][1..] == steps[n + 1..];
    }
  }

  /// Over every run, once no takeAll() is running: an entry has been handed out
  /// twice, by the removal and by takeAll(), exactly when somewhere in the run a
  /// takeAll() swapped it away before the erase of a removal that had found it
  /// not yet retired; otherwise at most once.
  lemma HandedOutTwiceIff(threads: nat, states: seq<State>, steps: seq<Step>, e: nat)
    requires IsRun(threads, states, steps)
    requires forall t :: 0 <= t < |states[|steps|].pcs| ==> !TakePc(states[|steps|].pcs[t])
    ensures var end := states[|steps|];
            && (HandOuts(end, e) == 2 <==> exists t: nat, j: nat, c: nat, k: nat :: Race(states, steps, e, t, j, c, k))
            && HandOuts(end, e) <= 2
            && (HandOuts(end, e) == 2 ==> end.removed[e] == 1 && end.idle[e] == 1)
  {
    RunIs(threads, states, steps, 0);
    assert steps[0..] == steps;
    HandedOutOnceUnlessRaced(threads, steps, e);
    RacedIff(threads, states, steps, e, |steps|);
    if t: nat, j: nat, c: nat, k: nat :| Race(states, steps, e, t, j, c, k) {
      assert k < |steps|;
    }
  }
}
