/// What each turn of the clock loop asked for and computed, and whose frame is
/// in what it serves (src/engine/engine.cpp: compositedBgra, compositedUyvy and
/// the part of clockLoop that uses them).
///
/// A composite is reused when it is stamped with the tick number being served.
/// Numbers rise, but a format change restarts them, so one can come twice.
module TickRecord {
  import opened Basics

  datatype Layout = Bgra | Uyvy

  /// A composite an output can ask for.
  datatype Composite = Composite(colour: nat, layout: Layout)

  /// One turn of the clock loop: the tick number it drew, the frame it read,
  /// whether the format changed while it was parked, whether it stopped there
  /// because the frame was of another raster, the colours its targets want, the
  /// composites they asked for, those it computed, in order, and the matrices
  /// it loaded.
  datatype Turn<F> = Turn(now: nat, frame: F, changed: bool, skipped: bool, keys: seq<nat>,
                          asked: set<Composite>, made: seq<Composite>, loaded: set<int>)

  // ------------------------------------------------------------ the record

  /// The turn leaves the composites of earlier ones in this colour alone.
  predicate Kept<F>(turn: Turn<F>, colour: nat) {
    !turn.changed && (turn.skipped || colour in turn.keys)
  }

  /// The turn that computed the composite still held after `log`.
  function Maker<F>(log: seq<Turn<F>>, x: Composite): (r: Option<nat>)
    ensures r.Some? ==> r.value < |log| && x in log[r.value].made
    decreases |log|
  {
    if log == [] then None
    else
      var n := |log| - 1;
      if x in log[n].made then Some(n) else if Kept(log[n], x.colour) then Maker(log[..n], x) else None
  }

  function Under(x: Composite): Composite { Composite(x.colour, Bgra) }

  /// The turn whose frame is in the composite held after `log`: a conversion
  /// shows what the composite it was made from showed.
  function Picture<F>(log: seq<Turn<F>>, x: Composite): (r: Option<nat>)
    ensures r.Some? ==> r.value < |log|
  {
    var maker := Maker(log, x);
    if maker.None? then None else Maker(log[..maker.value + 1], Under(x))
  }

  /// The composite held before `turn` carries its tick number.
  predicate Carried<F>(before: seq<Turn<F>>, turn: Turn<F>, x: Composite) {
    Kept(turn, x.colour) && Maker(before, x).Some? && before[Maker(before, x).value].now == turn.now
  }

  /// A turn computes what it is asked for, once, and only if what is held does
  /// not carry its number.
  ghost predicate TurnOk<F>(before: seq<Turn<F>>, turn: Turn<F>) {
    && (forall x :: x in turn.asked ==> x.colour in turn.keys && Under(x) in turn.asked)
    && (forall x :: x in turn.asked ==> (x in turn.made <==> !Carried(before, turn, x)))
    && (forall x :: x in turn.made ==> x in turn.asked)
    && (forall i, j :: 0 <= i < j < |turn.made| ==> turn.made[i] != turn.made[j])
    && (turn.skipped ==> turn.asked == {})
  }

  ghost predicate TurnAt<F>(log: seq<Turn<F>>, i: nat)
    requires i < |log|
  {
    TurnOk(log[..i], log[i])
  }

  ghost predicate LogOk<F>(log: seq<Turn<F>>) {
    forall i :: 0 <= i < |log| ==> TurnAt(log, i)
  }

  function Last<F>(log: seq<Turn<F>>): Turn<F>
    requires log != []
  {
    log[|log| - 1]
  }

  function Prior<F>(log: seq<Turn<F>>): seq<Turn<F>>
    requires log != []
  {
    log[..|log| - 1]
  }

  /// The turn under way goes on.
  ghost predicate GoesOn<F>(log: seq<Turn<F>>, log': seq<Turn<F>>) {
    && log != [] && log' != [] && Prior(log') == Prior(log)
    && Last(log').now == Last(log).now && Last(log').frame == Last(log).frame && Last(log').changed == Last(log).changed
    && Last(log').skipped == Last(log).skipped && Last(log').keys == Last(log).keys
    && Last(log).asked <= Last(log').asked && Last(log).made <= Last(log').made && Last(log).loaded <= Last(log').loaded
  }

  lemma GoesOnTwice<F>(a: seq<Turn<F>>, b: seq<Turn<F>>, c: seq<Turn<F>>)
    requires GoesOn(a, b) && GoesOn(b, c)
    ensures GoesOn(a, c)
  {
  }

  /// What has been asked for stays as it was answered.
  lemma AskedStays<F(!new)>(log: seq<Turn<F>>, log': seq<Turn<F>>, x: Composite)
    requires LogOk(log) && LogOk(log') && GoesOn(log, log') && x in Last(log).asked
    ensures Maker(log', x) == Maker(log, x) && Maker(log, x).Some?
    ensures Picture(log', x) == Picture(log, x) && Picture(log, x).Some?
  {
    assert TurnAt(log, |log| - 1);
    MakerStays(log, log', x);
    MakerStays(log, log', Under(x));
    var j, n := Maker(log, x).value, |log| - 1;
    if j == n {
      assert log[..n + 1] == log && log'[..n + 1] == log';
    } else {
      assert log[..j + 1] == Prior(log)[..j + 1] == log'[..j + 1];
      MakerHasUnder(log, x);
    }
  }

  lemma MakerStays<F(!new)>(log: seq<Turn<F>>, log': seq<Turn<F>>, x: Composite)
    requires LogOk(log) && LogOk(log') && GoesOn(log, log') && x in Last(log).asked
    ensures Maker(log', x) == Maker(log, x) && Maker(log, x).Some?
  {
    assert TurnAt(log, |log| - 1) && TurnAt(log', |log'| - 1);
    assert Carried(Prior(log'), Last(log'), x) == Carried(Prior(log), Last(log), x);
  }

  /// A conversion is of a composite held when it was made.
  lemma MakerHasUnder<F(!new)>(log: seq<Turn<F>>, x: Composite)
    requires LogOk(log) && Maker(log, x).Some?
    ensures Picture(log, x).Some?
  {
    var j := Maker(log, x).value;
    var upTo := log[..j + 1];
    assert TurnAt(log, j);
    assert Prior(upTo) == log[..j] && Under(x) in log[j].asked;
  }

  /// A turn begins: what it keeps is as it was.
  lemma BeginsMaker<F(!new)>(log: seq<Turn<F>>, turn: Turn<F>, x: Composite)
    requires turn.made == []
    ensures Maker(log + [turn], x) == if Kept(turn, x.colour) then Maker(log, x) else None
    ensures Kept(turn, x.colour) ==> Picture(log + [turn], x) == Picture(log, x)
  {
    assert (log + [turn])[..|log|] == log;
    if Kept(turn, x.colour) && Maker(log, x).Some? {
      var j := Maker(log, x).value;
      assert (log + [turn])[..j + 1] == log[..j + 1];
    }
  }

  lemma BeginsLog<F(!new)>(log: seq<Turn<F>>, turn: Turn<F>)
    requires LogOk(log) && turn.made == [] && turn.asked == {}
    ensures LogOk(log + [turn])
  {
    var after := log + [turn];
    forall i | 0 <= i < |after| ensures TurnAt(after, i) {
      if i < |log| {
        assert after[..i] == log[..i] && TurnAt(log, i);
      }
    }
  }

  /// The turn under way is asked for `x`, and computes it or not.
  function Asked<F>(log: seq<Turn<F>>, x: Composite, makes: bool, loads: set<int>): (r: seq<Turn<F>>)
    requires log != []
    ensures |r| == |log| && Prior(r) == Prior(log)
  {
    var turn := Last(log);
    Prior(log) + [turn.(asked := turn.asked + {x}, made := if makes then turn.made + [x] else turn.made, loaded := turn.loaded + loads)]
  }

  lemma AskedMaker<F(!new)>(log: seq<Turn<F>>, x: Composite, makes: bool, loads: set<int>, y: Composite)
    requires log != []
    ensures Maker(Asked(log, x, makes, loads), y) == if makes && y == x then Some(|log| - 1) else Maker(log, y)
  {
    var after := Asked(log, x, makes, loads);
    assert Last(after).made == if makes then Last(log).made + [x] else Last(log).made;
    assert y in Last(after).made <==> y in Last(log).made || (makes && y == x);
  }

  lemma AskedPicture<F(!new)>(log: seq<Turn<F>>, x: Composite, makes: bool, loads: set<int>, y: Composite)
    requires log != [] && (makes && Under(y) == x ==> y !in Last(log).made)
    requires makes ==> y != x
    ensures Picture(Asked(log, x, makes, loads), y) == Picture(log, y)
  {
    var after, n := Asked(log, x, makes, loads), |log| - 1;
    AskedMaker(log, x, makes, loads, y);
    if Maker(log, y).Some? {
      var j := Maker(log, y).value;
      if j == n {
        assert after[..n + 1] == after && log[..n + 1] == log;
        AskedMaker(log, x, makes, loads, Under(y));
      } else {
        assert after[..j + 1] == Prior(log)[..j + 1] == log[..j + 1];
      }
    }
  }

  lemma AskedLog<F(!new)>(log: seq<Turn<F>>, x: Composite, makes: bool, loads: set<int>)
    requires LogOk(log) && log != [] && !Last(log).skipped && x.colour in Last(log).keys
    requires Under(x) == x || Under(x) in Last(log).asked
    requires makes ==> x !in Last(log).made && !Carried(Prior(log), Last(log), x)
    requires !makes ==> (x in Last(log).made <==> !Carried(Prior(log), Last(log), x))
    ensures LogOk(Asked(log, x, makes, loads)) && GoesOn(log, Asked(log, x, makes, loads))
  {
    var after, n := Asked(log, x, makes, loads), |log| - 1;
    forall i | 0 <= i < |after| ensures TurnAt(after, i) {
      assert TurnAt(log, i);
      if i < n {
        assert after[..i] == Prior(log)[..i] == log[..i] && after[i] == Prior(after)[i] == log[i];
      } else {
        AskedTurn(Prior(log), Last(log), x, makes, loads);
      }
    }
  }

  lemma AskedTurn<F(!new)>(before: seq<Turn<F>>, turn: Turn<F>, x: Composite, makes: bool, loads: set<int>)
    requires TurnOk(before, turn) && !turn.skipped && x.colour in turn.keys
    requires Under(x) == x || Under(x) in turn.asked
    requires makes ==> x !in turn.made && !Carried(before, turn, x)
    requires !makes ==> (x in turn.made <==> !Carried(before, turn, x))
    ensures TurnOk(before, turn.(asked := turn.asked + {x}, made := if makes then turn.made + [x] else turn.made, loaded := turn.loaded + loads))
  {
    var after := turn.(asked := turn.asked + {x}, made := if makes then turn.made + [x] else turn.made, loaded := turn.loaded + loads);
    forall y ensures Carried(before, after, y) == Carried(before, turn, y) { }
    forall y | y in after.asked ensures y in after.made <==> !Carried(before, after, y) {
      assert y in after.made <==> y in turn.made || (makes && y == x);
    }
  }

  lemma AskedFrames<F(!new)>(log: seq<Turn<F>>, x: Composite, makes: bool, loads: set<int>)
    requires log != []
    ensures var after := Asked(log, x, makes, loads);
            forall i :: 0 <= i < |log| ==> after[i].now == log[i].now && after[i].frame == log[i].frame && log[i].loaded <= after[i].loaded
  {
    var after := Asked(log, x, makes, loads);
    forall i | 0 <= i < |log| - 1 ensures after[i] == log[i] { assert Prior(after)[i] == Prior(log)[i]; }
  }

  lemma PictureOfBgra<F(!new)>(log: seq<Turn<F>>, x: Composite)
    requires x.layout.Bgra?
    ensures Picture(log, x) == Maker(log, x)
  {
  }

  // ---------------------------------------------------------------- theorems

  /// The clock draws rising numbers, and starts again from 0 after a format
  /// change: the number of the turn the change fell in was drawn before it.
  ghost predicate ClockOrder<F>(log: seq<Turn<F>>) {
    forall i :: 0 < i < |log| ==> log[i - 1].changed || log[i - 1].now < log[i].now
  }

  /// The composite of turn `j` is still held, with its number, in turn `i`: the
  /// format changed in turn `j`, so that its number comes again; every turn
  /// since wanted the colour or stopped at its frame; and none computed the
  /// composite again.
  ghost predicate Leaks<F>(log: seq<Turn<F>>, j: nat, i: nat, x: Composite)
    requires i < |log|
  {
    && j < i && log[j].changed && log[j].now == log[i].now && x in log[j].made
    && (forall n :: j < n <= i ==> Kept(log[n], x.colour))
    && (forall n :: j < n < i ==> x !in log[n].made)
  }

  lemma {:induction false} MakerIff<F(!new)>(log: seq<Turn<F>>, x: Composite, j: nat)
    ensures Maker(log, x) == Some(j) <==>
            && j < |log| && x in log[j].made
            && (forall n :: j < n < |log| ==> Kept(log[n], x.colour) && x !in log[n].made)
    decreases |log|
  {
    if log != [] {
      var before, last := Prior(log), |log| - 1;
      MakerIff(before, x, j);
      assert forall n :: 0 <= n < last ==> before[n] == log[n];
    }
  }

  lemma {:induction false} NumbersRise<F>(log: seq<Turn<F>>, j: nat, i: nat)
    requires ClockOrder(log) && j < i < |log| && forall n :: j <= n < i ==> !log[n].changed
    ensures log[j].now < log[i].now
    decreases i
  {
    if j < i - 1 { NumbersRise(log, j, i - 1); }
  }

  lemma CarriedIff<F(!new)>(log: seq<Turn<F>>, i: nat, x: Composite)
    requires ClockOrder(log) && i < |log|
    ensures Carried(log[..i], log[i], x) <==> exists j :: Leaks(log, j, i, x)
  {
    if Carried(log[..i], log[i], x) {
      var j := Maker(log[..i], x).value;
      MakerIff(log[..i], x, j);
      assert forall n :: 0 <= n < i ==> log[..i][n] == log[n];
      assert forall n :: j < n <= i ==> !log[n].changed;
      if !log[j].changed { NumbersRise(log, j, i); }
      assert Leaks(log, j, i, x);
    }
    if j :| Leaks(log, j, i, x) {
      MakerIff(log[..i], x, j);
      assert forall n :: 0 <= n < i ==> log[..i][n] == log[n];
    }
  }

  /// What turn `i` would serve for `x` was left behind by a format change.
  ghost predicate LeftBehind<F>(log: seq<Turn<F>>, i: nat, x: Composite)
    requires i < |log|
  {
    (exists j :: Leaks(log, j, i, x)) || (exists j :: Leaks(log, j, i, Under(x)))
  }

  /// Over every run of the clock: what is served for a composite is of another
  /// turn's frame exactly when a composite from the turn of the last format
  /// change is held with the number now drawn again, this one or the one it is
  /// converted from.
  lemma StaleIff<F(!new)>(log: seq<Turn<F>>, i: nat, x: Composite)
    requires LogOk(log) && ClockOrder(log) && i < |log| && x in log[i].asked
    ensures Picture(log[..i + 1], x).Some?
    ensures Picture(log[..i + 1], x) != Some(i) <==> LeftBehind(log, i, x)
  {
    var upTo, y := log[..i + 1], Under(x);
    assert TurnAt(log, i);
    assert Prior(upTo) == log[..i];
    CarriedIff(log, i, x);
    CarriedIff(log, i, y);
    LogPrefix(log, i + 1);
    MakerHasUnder(upTo, x);
    ServedPicture(upTo, x);
  }

  lemma LogPrefix<F(!new)>(log: seq<Turn<F>>, n: nat)
    requires LogOk(log) && n <= |log|
    ensures LogOk(log[..n])
  {
    forall i | 0 <= i < n ensures TurnAt(log[..n], i) {
      assert TurnAt(log, i) && log[..n][..i] == log[..i];
    }
  }

  /// A turn serves its own frame exactly when neither composite is carried.
  lemma ServedPicture<F(!new)>(log: seq<Turn<F>>, x: Composite)
    requires log != [] && TurnOk(Prior(log), Last(log)) && x in Last(log).asked && Picture(log, x).Some?
    ensures Picture(log, x) == Some(|log| - 1) <==>
            !Carried(Prior(log), Last(log), x) && !Carried(Prior(log), Last(log), Under(x))
  {
    var n := |log| - 1;
    assert log[..n + 1] == log;
  }

  /// A format change lets at most one later turn serve what it left behind.
  lemma OnceAChange<F>(log: seq<Turn<F>>, j: nat, i: nat, i': nat, x: Composite, y: Composite)
    requires ClockOrder(log) && i < |log| && i' < |log| && Leaks(log, j, i, x) && Leaks(log, j, i', y)
    ensures i == i'
  {
    if i < i' {
      NumbersRise(log, i, i');
    } else if i' < i {
      NumbersRise(log, i', i);
    }
  }
}
