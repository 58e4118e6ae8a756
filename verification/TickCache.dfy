/// The conversions one tick shares between its outputs
/// (src/engine/engine.cpp: frameInFormat, unpremultiplied, compositedBgra,
/// compositedUyvy and the part of clockLoop that uses them).
///
/// Frames are any type, and the three pixel conversions any functions on it:
/// what is proved is exactly when sharing them changes something an output can
/// see: when a tick number comes twice, because a format change restarts it.
module TickCache {
  import opened Basics
  import opened TickRecord

  /// What an output asks for: a background colour or none, a pixel layout,
  /// straight alpha or not.
  datatype Target = Target(background: Option<nat>, layout: Layout, straight: bool)

  /// The real conversions, and the raster of a frame.
  datatype Kernels<!F> = Kernels(
    over: (F, nat) -> F,
    toUyvy: (F, int) -> F,
    straighten: F -> F,
    shape: F -> nat)

  datatype Variant<F> = Variant(colour: nat, bgra: Option<F>, uyvy: Option<F>, bgraTick: int, uyvyTick: int)

  /// What `target` would get if nothing were shared, with colour matrix `m`.
  function Direct<F>(k: Kernels<F>, frame: F, target: Target, m: int): F {
    match target.background
    case Some(colour) => if target.layout.Uyvy? then k.toUyvy(k.over(frame, colour), m) else k.over(frame, colour)
    case None =>
      if target.layout.Uyvy? then k.toUyvy(frame, m)
      else if target.straight then k.straighten(frame)
      else frame
  }

  predicate NeedsUyvy(t: Target) { t.background.None? && t.layout.Uyvy? }

  predicate NeedsStraight(t: Target) { t.background.None? && !t.layout.Uyvy? && t.straight }

  /// A conversion the whole tick shares was refused: nothing goes out.
  predicate DropsTick(targets: seq<Target>) {
    exists t :: t in targets && (NeedsUyvy(t) || NeedsStraight(t))
  }

  function Keep<F(!new)>(variants: seq<Variant<F>>, keys: seq<nat>): (r: seq<Variant<F>>)
    ensures forall v :: v in r <==> v in variants && v.colour in keys
    ensures |r| <= |variants|
  {
    if variants == [] then []
    else (if variants[0].colour in keys then [variants[0]] else []) + Keep(variants[1..], keys)
  }

  predicate Distinct<F>(variants: seq<Variant<F>>) {
    forall i, j :: 0 <= i < j < |variants| ==> variants[i].colour != variants[j].colour
  }

  lemma {:induction false} KeepDistinct<F(!new)>(variants: seq<Variant<F>>, keys: seq<nat>)
    requires Distinct(variants)
    ensures Distinct(Keep(variants, keys))
  {
    if variants != [] {
      KeepDistinct(variants[1..], keys);
      var rest := Keep(variants[1..], keys);
      forall j | 0 <= j < |rest| ensures rest[j].colour != variants[0].colour { assert rest[j] in variants[1..]; }
    }
  }

  // ------------------------------------------------- the cache and the record

  ghost predicate VariantOk<F(!new)>(k: Kernels<F>, log: seq<Turn<F>>, v: Variant<F>) {
    BgraOk(k, log, v) && UyvyOk(k, log, v)
  }

  /// The stamp is the number of the turn that computed the composite, which is
  /// that turn's frame over the colour,
  ghost predicate BgraOk<F(!new)>(k: Kernels<F>, log: seq<Turn<F>>, v: Variant<F>) {
    match Maker(log, Composite(v.colour, Bgra))
    case None => v.bgraTick == -1
    case Some(j) => v.bgraTick == log[j].now && v.bgra.Some? && v.bgra.value == k.over(log[j].frame, v.colour)
  }

  /// or the conversion, with a matrix that turn loaded, of the composite it
  /// found or computed.
  ghost predicate UyvyOk<F(!new)>(k: Kernels<F>, log: seq<Turn<F>>, v: Variant<F>) {
    match Maker(log, Composite(v.colour, Uyvy))
    case None => v.uyvyTick == -1
    case Some(j) =>
      && v.uyvyTick == log[j].now && v.uyvy.Some? && Picture(log, Composite(v.colour, Uyvy)).Some?
      && var p := Picture(log, Composite(v.colour, Uyvy)).value;
         exists m :: m in log[j].loaded && v.uyvy.value == k.toUyvy(k.over(log[p].frame, v.colour), m)
  }

  predicate HasColour<F(!new)>(variants: seq<Variant<F>>, colour: nat) {
    exists i :: 0 <= i < |variants| && variants[i].colour == colour
  }

  ghost predicate Tied<F(!new)>(k: Kernels<F>, variants: seq<Variant<F>>, log: seq<Turn<F>>) {
    && (forall i :: 0 <= i < |variants| ==> VariantOk(k, log, variants[i]))
    && (forall x :: Maker(log, x).Some? ==> HasColour(variants, x.colour))
  }

  /// What the cache holds is what the record says.
  ghost predicate Consistent<F(!new)>(k: Kernels<F>, variants: seq<Variant<F>>, log: seq<Turn<F>>, changed: bool) {
    Distinct(variants) && LogOk(log) && (if changed then variants == [] else Tied(k, variants, log))
  }

  lemma BeginsTied<F(!new)>(k: Kernels<F>, variants: seq<Variant<F>>, log: seq<Turn<F>>, turn: Turn<F>)
    requires Distinct(variants) && turn.made == []
    requires if turn.changed then variants == [] else Tied(k, variants, log)
    ensures Tied(k, if turn.skipped then variants else Keep(variants, turn.keys), log + [turn])
  {
    var after := if turn.skipped then variants else Keep(variants, turn.keys);
    forall i | 0 <= i < |after| ensures VariantOk(k, log + [turn], after[i]) {
      assert after[i] in variants;
      BeginsMaker(log, turn, Composite(after[i].colour, Bgra));
      BeginsMaker(log, turn, Composite(after[i].colour, Uyvy));
    }
    forall x | Maker(log + [turn], x).Some? ensures HasColour(after, x.colour) {
      BeginsMaker(log, turn, x);
      var i :| 0 <= i < |variants| && variants[i].colour == x.colour;
      assert variants[i] in after;
    }
  }

  /// Its own composite is the one that changes; the others are tied as before.
  lemma AskedOther<F(!new)>(k: Kernels<F>, log: seq<Turn<F>>, x: Composite, makes: bool, loads: set<int>, v: Variant<F>)
    requires log != [] && VariantOk(k, log, v)
    requires makes ==> v.colour != x.colour
    ensures VariantOk(k, Asked(log, x, makes, loads), v)
  {
    AskedMaker(log, x, makes, loads, Composite(v.colour, Bgra));
    AskedMaker(log, x, makes, loads, Composite(v.colour, Uyvy));
    AskedPicture(log, x, makes, loads, Composite(v.colour, Uyvy));
    AskedFrames(log, x, makes, loads);
  }

  /// One target's payload: the direct conversion of this turn's frame with a
  /// matrix it loaded; over a background, of the frame `Picture` names, with a
  /// matrix the turn that converted it loaded.
  ghost predicate Sent<F(!new)>(k: Kernels<F>, log: seq<Turn<F>>, target: Target, value: F)
    requires log != []
  {
    match target.background
    case None => exists m :: (target.layout.Uyvy? ==> m in Last(log).loaded) && value == Direct(k, Last(log).frame, target, m)
    case Some(colour) =>
      var x := Composite(colour, target.layout);
      && x in Last(log).asked && Maker(log, x).Some? && Picture(log, x).Some?
      && exists m :: (target.layout.Uyvy? ==> m in log[Maker(log, x).value].loaded)
           && value == Direct(k, log[Picture(log, x).value].frame, target, m)
  }

  lemma SentStays<F(!new)>(k: Kernels<F>, log: seq<Turn<F>>, log': seq<Turn<F>>, target: Target, value: F)
    requires LogOk(log) && LogOk(log') && GoesOn(log, log') && Sent(k, log, target, value)
    ensures Sent(k, log', target, value)
  {
    forall i | 0 <= i < |log| - 1 ensures log'[i] == log[i] { assert Prior(log')[i] == Prior(log)[i]; }
    if target.background.Some? {
      AskedStays(log, log', Composite(target.background.value, target.layout));
    }
  }

  lemma DirectIsSent<F(!new)>(k: Kernels<F>, log: seq<Turn<F>>, target: Target, m: int)
    requires log != [] && target.background.None? && (target.layout.Uyvy? ==> m in Last(log).loaded)
    ensures Sent(k, log, target, Direct(k, Last(log).frame, target, m))
  {
  }

  /// Over a background there is no alpha to make straight.
  lemma StraightIsMoot<F(!new)>(k: Kernels<F>, log: seq<Turn<F>>, target: Target, value: Option<F>)
    requires log != [] && target.background.Some?
    requires value.Some? ==> Sent(k, log, target.(straight := false), value.value)
    ensures value.Some? ==> Sent(k, log, target, value.value)
  {
    if value.Some? {
      var x := Composite(target.background.value, target.layout);
      var m :| (target.layout.Uyvy? ==> m in log[Maker(log, x).value].loaded)
               && value.value == Direct(k, log[Picture(log, x).value].frame, target.(straight := false), m);
      assert value.value == Direct(k, log[Picture(log, x).value].frame, target, m);
    }
  }

  /// What a target was sent: nothing exactly when the composite it needs is
  /// refused.
  ghost predicate Answer<F(!new)>(k: Kernels<F>, log: seq<Turn<F>>, target: Target, sent: Option<F>, shaped: bool)
    requires log != []
  {
    (sent.None? <==> !shaped && target.background.Some?) && (sent.Some? ==> Sent(k, log, target, sent.value))
  }

  ghost predicate Answers<F(!new)>(k: Kernels<F>, log: seq<Turn<F>>, targets: seq<Target>, sent: seq<Option<F>>, shaped: bool)
    requires log != []
  {
    |sent| <= |targets| && forall x :: 0 <= x < |sent| ==> Answer(k, log, targets[x], sent[x], shaped)
  }

  lemma AnswersGrow<F(!new)>(k: Kernels<F>, log: seq<Turn<F>>, log': seq<Turn<F>>, targets: seq<Target>,
                             sent: seq<Option<F>>, payload: Option<F>, shaped: bool)
    requires LogOk(log) && LogOk(log') && GoesOn(log, log') && Answers(k, log, targets, sent, shaped)
    requires |sent| < |targets| && Answer(k, log', targets[|sent|], payload, shaped)
    ensures Answers(k, log', targets, sent + [payload], shaped)
  {
    forall x | 0 <= x < |sent| ensures Answer(k, log', targets[x], sent[x], shaped) {
      assert Answer(k, log, targets[x], sent[x], shaped);
      if sent[x].Some? { SentStays(k, log, log', targets[x], sent[x].value); }
    }
  }

  lemma BgraIsSent<F(!new)>(k: Kernels<F>, log: seq<Turn<F>>, v: Variant<F>)
    requires log != [] && BgraOk(k, log, v) && Composite(v.colour, Bgra) in Last(log).asked && v.bgraTick != -1
    ensures v.bgra.Some? && Sent(k, log, Target(Some(v.colour), Bgra, false), v.bgra.value)
  {
    var x := Composite(v.colour, Bgra);
    PictureOfBgra(log, x);
    assert v.bgra.value == Direct(k, log[Picture(log, x).value].frame, Target(Some(v.colour), Bgra, false), 0);
  }

  lemma UyvyIsSent<F(!new)>(k: Kernels<F>, log: seq<Turn<F>>, v: Variant<F>)
    requires log != [] && UyvyOk(k, log, v) && Composite(v.colour, Uyvy) in Last(log).asked && v.uyvyTick != -1
    ensures v.uyvy.Some? && Sent(k, log, Target(Some(v.colour), Uyvy, false), v.uyvy.value)
  {
    var x := Composite(v.colour, Uyvy);
    var j, p := Maker(log, x).value, Picture(log, x).value;
    var m :| m in log[j].loaded && v.uyvy.value == k.toUyvy(k.over(log[p].frame, v.colour), m);
    assert v.uyvy.value == Direct(k, log[p].frame, Target(Some(v.colour), Uyvy, false), m);
  }

  /// The turn computes a composite over a colour,
  lemma BgraPut<F(!new)>(k: Kernels<F>, log: seq<Turn<F>>, was: Variant<F>, v: Variant<F>)
    requires log != [] && VariantOk(k, log, was) && TurnOk(Prior(log), Last(log))
    requires var x := Composite(v.colour, Bgra); x !in Last(log).made && !Carried(Prior(log), Last(log), x)
    requires v == was.(bgra := Some(k.over(Last(log).frame, was.colour)), bgraTick := Last(log).now)
    ensures VariantOk(k, Asked(log, Composite(v.colour, Bgra), true, {}), v)
  {
    var x, y := Composite(v.colour, Bgra), Composite(v.colour, Uyvy);
    AskedMaker(log, x, true, {}, x);
    AskedMaker(log, x, true, {}, y);
    assert Under(y) == x && y !in Last(log).made;
    AskedPicture(log, x, true, {}, y);
    AskedFrames(log, x, true, {});
  }

  /// or converts one.
  lemma UyvyPut<F(!new)>(k: Kernels<F>, log: seq<Turn<F>>, was: Variant<F>, v: Variant<F>, bgra: F, matrix: int)
    requires log != [] && VariantOk(k, log, was) && Sent(k, log, Target(Some(was.colour), Bgra, false), bgra)
    requires v == was.(uyvy := Some(k.toUyvy(bgra, matrix)), uyvyTick := Last(log).now)
    ensures VariantOk(k, Asked(log, Composite(v.colour, Uyvy), true, {matrix}), v)
  {
    var x, y := Composite(v.colour, Uyvy), Composite(v.colour, Bgra);
    var after, n := Asked(log, x, true, {matrix}), |log| - 1;
    AskedMaker(log, x, true, {matrix}, x);
    AskedMaker(log, x, true, {matrix}, y);
    AskedFrames(log, x, true, {matrix});
    PictureOfBgra(log, y);
    assert after[..n + 1] == after;
    assert matrix in after[n].loaded;
  }

  class Cache<F(==,!new)> {
    const k: Kernels<F>
    var variants: seq<Variant<F>>
    var pool: nat
    /// Every turn so far, and whether the format has changed since the last.
    ghost var log: seq<Turn<F>>
    ghost var changed: bool

    constructor (k: Kernels<F>, pool: nat)
      ensures Valid() && this.k == k && this.pool == pool && log == [] && !changed && variants == []
    {
      this.k, this.pool := k, pool;
      variants, log, changed := [], [], false;
    }

    ghost predicate Valid()
      reads this
    {
      Consistent(k, variants, log, changed)
    }

    /// A turn is under way with this frame and number.
    ghost predicate Turning(source: F, now: int)
      reads this
    {
      log != [] && !changed && Last(log).now == now && Last(log).frame == source && !Last(log).skipped
    }

    /// The raster changed while the clock was parked: every composite is
    /// dropped. The number the clock has drawn stays, and the next it draws
    /// start again from 0.
    method FormatChanged(shape: nat)
      requires Valid()
      modifies this
      ensures Valid() && pool == shape && variants == [] && changed && log == old(log)
    {
      variants, pool, changed := [], shape, true;
    }

    /// The frame is of another raster: the turn ends before it touches anything.
    method SkipTurn(now: nat, source: F)
      requires Valid()
      modifies this`log, this`changed
      ensures Valid() && !changed && log == old(log) + [Turn(now, source, old(changed), true, [], {}, [], {})]
    {
      ghost var turn := Turn(now, source, changed, true, [], {}, [], {});
      BeginsLog(log, turn);
      BeginsTied(k, variants, log, turn);
      log, changed := log + [turn], false;
    }

    /// The buffers of colours nothing wants any more are dropped. `loaded` is
    /// what the conversion shared by the whole tick loads, if there is one.
    method BeginTurn(now: nat, source: F, keys: seq<nat>, ghost loaded: set<int>)
      requires Valid()
      modifies this`variants, this`log, this`changed
      ensures Valid() && Turning(source, now) && variants == Keep(old(variants), keys)
      ensures log == old(log) + [Turn(now, source, old(changed), false, keys, {}, [], loaded)]
    {
      ghost var turn := Turn(now, source, changed, false, keys, {}, [], loaded);
      KeepDistinct(variants, keys);
      BeginsLog(log, turn);
      BeginsTied(k, variants, log, turn);
      variants := Keep(variants, keys);
      log, changed := log + [turn], false;
    }

    method BackgroundVariant(colour: nat) returns (i: nat)
      requires Valid() && !changed
      modifies this`variants
      ensures Valid() && i < |variants| && variants[i].colour == colour
      ensures old(variants) <= variants && |variants| <= |old(variants)| + 1
    {
      for j := 0 to |variants|
        invariant variants == old(variants)
        invariant forall x :: 0 <= x < j ==> variants[x].colour != colour
      {
        if variants[j].colour == colour {
          return j;
        }
      }
      assert !HasColour(variants, colour);
      assert Maker(log, Composite(colour, Bgra)).None? && Maker(log, Composite(colour, Uyvy)).None?;
      ghost var before := variants;
      variants := variants + [Variant(colour, None, None, -1, -1)];
      forall x | Maker(log, x).Some? ensures HasColour(variants, x.colour) {
        var n :| 0 <= n < |before| && before[n].colour == x.colour;
        assert variants[n] == before[n];
      }
      return |variants| - 1;
    }

    /// Variant `i` gets the composite `x` this turn computed.
    lemma PutIsTied(i: nat, v: Variant<F>, x: Composite, loads: set<int>)
      requires Distinct(variants) && Tied(k, variants, log) && log != []
      requires i < |variants| && v.colour == variants[i].colour == x.colour
      requires VariantOk(k, Asked(log, x, true, loads), v)
      ensures Distinct(variants[i := v]) && Tied(k, variants[i := v], Asked(log, x, true, loads))
    {
      var after, log' := variants[i := v], Asked(log, x, true, loads);
      forall n | 0 <= n < |after| ensures VariantOk(k, log', after[n]) {
        if n != i { AskedOther(k, log, x, true, loads, variants[n]); }
      }
      forall y | Maker(log', y).Some? ensures HasColour(after, y.colour) {
        AskedMaker(log, x, true, loads, y);
        if y == x {
          assert after[i].colour == y.colour;
        } else {
          var n :| 0 <= n < |variants| && variants[n].colour == y.colour;
          assert after[n].colour == y.colour;
        }
      }
    }

    /// Nothing is put: the composite held is the answer.
    lemma HeldIsTied(x: Composite)
      requires Tied(k, variants, log) && log != []
      ensures Tied(k, variants, Asked(log, x, false, {}))
    {
      var log' := Asked(log, x, false, {});
      forall n | 0 <= n < |variants| ensures VariantOk(k, log', variants[n]) {
        AskedOther(k, log, x, false, {}, variants[n]);
      }
      forall y | Maker(log', y).Some? ensures HasColour(variants, y.colour) { AskedMaker(log, x, false, {}, y); }
    }

    method CompositedBgra(source: F, colour: nat, now: nat) returns (r: Option<F>)
      requires Valid() && Turning(source, now) && colour in Last(log).keys
      modifies this`variants, this`log
      ensures Valid() && GoesOn(old(log), log) && Last(log).loaded == Last(old(log)).loaded
      ensures r.None? <==> pool != k.shape(source)
      ensures r.Some? ==> Sent(k, log, Target(Some(colour), Bgra, false), r.value)
    {
      if pool != k.shape(source) {
        return None;
      }
      var i := BackgroundVariant(colour);
      ghost var x := Composite(colour, Bgra);
      if variants[i].bgraTick == now && variants[i].bgra.Some? {
        BgraHeld(i, now);
        log := Asked(log, x, false, {});
        return variants[i].bgra;
      }
      var v := variants[i].(bgra := Some(k.over(source, colour)), bgraTick := now);
      BgraMade(i, v);
      variants, log := variants[i := v], Asked(log, x, true, {});
      return v.bgra;
    }

    /// The composite held carries this turn's number: it is the answer.
    lemma BgraHeld(i: nat, now: nat)
      requires Valid() && !changed && log != [] && Last(log).now == now && !Last(log).skipped
      requires i < |variants| && variants[i].colour in Last(log).keys
      requires variants[i].bgraTick == now && variants[i].bgra.Some?
      ensures var log' := Asked(log, Composite(variants[i].colour, Bgra), false, {});
              Consistent(k, variants, log', false) && GoesOn(log, log')
              && Sent(k, log', Target(Some(variants[i].colour), Bgra, false), variants[i].bgra.value)
    {
      var x := Composite(variants[i].colour, Bgra);
      assert VariantOk(k, log, variants[i]) && TurnAt(log, |log| - 1);
      AskedLog(log, x, false, {});
      HeldIsTied(x);
      BgraIsSent(k, Asked(log, x, false, {}), variants[i]);
    }

    /// It does not: the turn computes its own.
    lemma BgraMade(i: nat, v: Variant<F>)
      requires Valid() && !changed && log != [] && !Last(log).skipped
      requires i < |variants| && v.colour in Last(log).keys
      requires !(variants[i].bgraTick == Last(log).now && variants[i].bgra.Some?)
      requires v == variants[i].(bgra := Some(k.over(Last(log).frame, v.colour)), bgraTick := Last(log).now)
      ensures var log' := Asked(log, Composite(v.colour, Bgra), true, {});
              Consistent(k, variants[i := v], log', false) && GoesOn(log, log')
              && Sent(k, log', Target(Some(v.colour), Bgra, false), v.bgra.value)
    {
      var x := Composite(v.colour, Bgra);
      assert VariantOk(k, log, variants[i]) && TurnAt(log, |log| - 1);
      AskedLog(log, x, true, {});
      BgraPut(k, log, variants[i], v);
      PutIsTied(i, v, x, {});
      BgraIsSent(k, Asked(log, x, true, {}), v);
    }

    method CompositedUyvy(source: F, colour: nat, now: nat, matrix: int) returns (r: Option<F>)
      requires Valid() && Turning(source, now) && colour in Last(log).keys
      modifies this`variants, this`log
      ensures Valid() && GoesOn(old(log), log) && Last(log).loaded <= Last(old(log)).loaded + {matrix}
      ensures r.None? <==> pool != k.shape(source)
      ensures r.Some? ==> Sent(k, log, Target(Some(colour), Uyvy, false), r.value)
    {
      var bgra := CompositedBgra(source, colour, now);
      if bgra.None? {
        return None;
      }
      ghost var composed := log;
      var uyvy := Converted(source, colour, now, matrix, bgra.value);
      GoesOnTwice(old(log), composed, log);
      return Some(uyvy);
    }

    /// The conversion of the composite just answered.
    method Converted(source: F, colour: nat, now: nat, matrix: int, bgra: F) returns (r: F)
      requires Valid() && Turning(source, now) && colour in Last(log).keys
      requires Sent(k, log, Target(Some(colour), Bgra, false), bgra)
      modifies this`variants, this`log
      ensures Valid() && GoesOn(old(log), log) && Last(log).loaded <= Last(old(log)).loaded + {matrix}
      ensures Sent(k, log, Target(Some(colour), Uyvy, false), r)
    {
      var i := BackgroundVariant(colour);
      ghost var x := Composite(colour, Uyvy);
      if variants[i].uyvyTick == now && variants[i].uyvy.Some? {
        UyvyHeld(i, now);
        log := Asked(log, x, false, {});
        return variants[i].uyvy.value;
      }
      var v := variants[i].(uyvy := Some(k.toUyvy(bgra, matrix)), uyvyTick := now);
      UyvyMade(i, v, bgra, matrix, now);
      variants, log := variants[i := v], Asked(log, x, true, {matrix});
      return v.uyvy.value;
    }

    /// The conversion held carries this turn's number: it is the answer.
    lemma UyvyHeld(i: nat, now: nat)
      requires Valid() && !changed && log != [] && Last(log).now == now && !Last(log).skipped
      requires i < |variants| && variants[i].colour in Last(log).keys && Composite(variants[i].colour, Bgra) in Last(log).asked
      requires variants[i].uyvyTick == now && variants[i].uyvy.Some?
      ensures var log' := Asked(log, Composite(variants[i].colour, Uyvy), false, {});
              Consistent(k, variants, log', false) && GoesOn(log, log')
              && Sent(k, log', Target(Some(variants[i].colour), Uyvy, false), variants[i].uyvy.value)
    {
      var x := Composite(variants[i].colour, Uyvy);
      assert VariantOk(k, log, variants[i]) && TurnAt(log, |log| - 1);
      AskedLog(log, x, false, {});
      HeldIsTied(x);
      UyvyIsSent(k, Asked(log, x, false, {}), variants[i]);
    }

    /// It does not: the turn converts its composite.
    lemma UyvyMade(i: nat, v: Variant<F>, bgra: F, matrix: int, now: nat)
      requires Valid() && !changed && log != [] && Last(log).now == now && !Last(log).skipped
      requires i < |variants| && v.colour in Last(log).keys && Composite(v.colour, Bgra) in Last(log).asked
      requires !(variants[i].uyvyTick == now && variants[i].uyvy.Some?)
      requires v == variants[i].(uyvy := Some(k.toUyvy(bgra, matrix)), uyvyTick := now)
      requires Sent(k, log, Target(Some(v.colour), Bgra, false), bgra)
      ensures var log' := Asked(log, Composite(v.colour, Uyvy), true, {matrix});
              Consistent(k, variants[i := v], log', false) && GoesOn(log, log')
              && Sent(k, log', Target(Some(v.colour), Uyvy, false), v.uyvy.value)
    {
      var x := Composite(v.colour, Uyvy);
      assert VariantOk(k, log, variants[i]) && TurnAt(log, |log| - 1);
      AskedLog(log, x, true, {matrix});
      UyvyPut(k, log, variants[i], v, bgra, matrix);
      PutIsTied(i, v, x, {matrix});
      UyvyIsSent(k, Asked(log, x, true, {matrix}), v);
    }

    /// What this tick's targets ask for between them.
    method Wants(targets: seq<Target>) returns (needUyvy: bool, needStraight: bool, keys: seq<nat>)
      ensures needUyvy <==> exists t :: t in targets && NeedsUyvy(t)
      ensures needStraight <==> exists t :: t in targets && NeedsStraight(t)
      ensures forall c :: c in keys <==> exists t :: t in targets && t.background == Some(c)
      ensures forall i, j :: 0 <= i < j < |keys| ==> keys[i] != keys[j]
    {
      needUyvy, needStraight, keys := false, false, [];
      for i := 0 to |targets|
        invariant needUyvy <==> exists t :: t in targets[..i] && NeedsUyvy(t)
        invariant needStraight <==> exists t :: t in targets[..i] && NeedsStraight(t)
        invariant forall c :: c in keys <==> exists t :: t in targets[..i] && t.background == Some(c)
        invariant forall x, y :: 0 <= x < y < |keys| ==> keys[x] != keys[y]
      {
        assert targets[..i + 1] == targets[..i] + [targets[i]];
        ghost var asksUyvy, asksStraight := NeedsUyvy(targets[i]), NeedsStraight(targets[i]);
        if targets[i].background.Some? {
          if targets[i].background.value !in keys { keys := keys + [targets[i].background.value]; }
        } else if targets[i].layout.Uyvy? {
          needUyvy := true;
        } else if targets[i].straight {
          needStraight := true;
        }
      }
      assert targets[..|targets|] == targets;
    }

    /// What one target is sent, given the tick's shared conversions.
    method Payload(source: F, target: Target, now: nat, load: int, uyvy: Option<F>, straight: Option<F>, ghost first: int)
        returns (payload: Option<F>)
      requires Valid() && Turning(source, now)
      requires target.background.Some? ==> target.background.value in Last(log).keys
      requires NeedsUyvy(target) ==> uyvy == Some(k.toUyvy(source, first)) && first in Last(log).loaded
      requires NeedsStraight(target) ==> straight == Some(k.straighten(source))
      modifies this`variants, this`log
      ensures Valid() && GoesOn(old(log), log) && Last(log).loaded <= Last(old(log)).loaded + {load}
      ensures payload.None? <==> target.background.Some? && pool != k.shape(source)
      ensures payload.Some? ==> Sent(k, log, target, payload.value)
    {
      payload := Some(source);
      if target.background.Some? {
        if target.layout.Uyvy? {
          payload := CompositedUyvy(source, target.background.value, now, load);
        } else {
          payload := CompositedBgra(source, target.background.value, now);
        }
        StraightIsMoot(k, log, target, payload);
      } else {
        DirectIsSent(k, log, target, first);
        if target.layout.Uyvy? {
          payload := uyvy;
        } else if target.straight {
          payload := straight;
        }
      }
    }

    /// One turn of the clock with a frame: what each target is sent, None for a
    /// target that gets nothing. `loads` are the values the colour matrix has
    /// each time it is read: another thread may change it in the middle of a
    /// tick.
    method Serve(source: F, targets: seq<Target>, now: nat, loads: seq<int>) returns (sent: seq<Option<F>>)
      requires Valid() && |loads| == |targets| + 1
      modifies this`variants, this`log, this`changed
      ensures Valid() && Turning(source, now) && Prior(log) == old(log) && Last(log).changed == old(changed)
      ensures forall c :: c in Last(log).keys <==> exists t :: t in targets && t.background == Some(c)
      ensures |sent| == |targets| && (forall m :: m in Last(log).loaded ==> m in loads) && TurnOk(Prior(log), Last(log))
      ensures forall i :: 0 <= i < |targets| ==>
          (sent[i].None? <==> pool != k.shape(source) && (targets[i].background.Some? || DropsTick(targets)))
      ensures forall i :: 0 <= i < |targets| && sent[i].Some? ==> Sent(k, log, targets[i], sent[i].value)
    {
      var needUyvy, needStraight, keys := Wants(targets);
      BeginTurn(now, source, keys, if needUyvy && pool == k.shape(source) then {loads[0]} else {});

      var uyvy := if needUyvy && pool == k.shape(source) then Some(k.toUyvy(source, loads[0])) else None;
      var straight := if needStraight && pool == k.shape(source) then Some(k.straighten(source)) else None;
      if (needUyvy && uyvy.None?) || (needStraight && straight.None?) {
        assert TurnAt(log, |log| - 1);
        return seq(|targets|, i => None);
      }

      ghost var shaped := pool == k.shape(source);
      sent := [];
      for i := 0 to |targets|
        invariant Valid() && Turning(source, now) && Prior(log) == old(log) && Last(log).changed == old(changed)
        invariant Last(log).keys == keys && (needUyvy ==> loads[0] in Last(log).loaded)
        invariant forall m :: m in Last(log).loaded ==> m in loads
        invariant |sent| == i && Answers(k, log, targets, sent, shaped)
      {
        ghost var before := log;
        var payload := Payload(source, targets[i], now, loads[i + 1], uyvy, straight, loads[0]);
        AnswersGrow(k, before, log, targets, sent, payload, shaped);
        sent := sent + [payload];
      }
      assert TurnAt(log, |log| - 1);
      forall i | 0 <= i < |targets| ensures Answer(k, log, targets[i], sent[i], shaped) { }
    }
  }

  // ---------------------------------------------------------------- theorems

  /// With nothing left behind, every target is sent what converting this turn's
  /// frame for it alone would give, with a matrix this turn loaded.
  lemma FreshIsDirect<F(!new)>(k: Kernels<F>, log: seq<Turn<F>>, target: Target, value: F)
    requires LogOk(log) && ClockOrder(log) && log != [] && Sent(k, log, target, value)
    requires target.background.Some? ==>
               !LeftBehind(log, |log| - 1, Composite(target.background.value, target.layout))
    ensures exists m :: (target.layout.Uyvy? ==> m in Last(log).loaded) && value == Direct(k, Last(log).frame, target, m)
  {
    if target.background.Some? {
      var x := Composite(target.background.value, target.layout);
      assert log[..|log|] == log;
      StaleIff(log, |log| - 1, x);
      var m :| (target.layout.Uyvy? ==> m in log[Maker(log, x).value].loaded)
               && value == Direct(k, log[Picture(log, x).value].frame, target, m);
      assert (target.layout.Uyvy? ==> m in Last(log).loaded) && value == Direct(k, Last(log).frame, target, m);
    }
  }

  /// The format changes in the turn that drew 2; the clock starts again, is two
  /// periods late for its first call and jumps to 2
  /// (`FrameClock.RestartRepeats`). The frame has changed; the composite sent
  /// is the old frame's.
  method RestartServesStale<F(==,!new)>(k: Kernels<F>, before: F, after: F, colour: nat) returns (first: seq<Option<F>>, second: seq<Option<F>>)
    requires k.shape(before) == k.shape(after)
    ensures first == [Some(k.over(before, colour))]
    ensures second == [Some(k.over(before, colour))]
  {
    var cache := new Cache(k, k.shape(before));
    var targets := [Target(Some(colour), Bgra, false)];
    cache.FormatChanged(k.shape(before));
    first := cache.Serve(before, targets, 2, [0, 0]);
    second := cache.Serve(after, targets, 2, [0, 0]);
  }
}
