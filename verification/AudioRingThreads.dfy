/// The audio ring's two threads interleaved, one index load, one cell or one
/// publish at a time (src/core/audio_ring.cpp, 40-137): the producer owns
/// `write`, the consumer owns `read`, and neither ever waits.
module AudioRingThreads {
  import opened Basics
  import AudioRing

  datatype Producer<F> =
    | Resting
    | Copying(data: seq<F>, buffered: nat, done: nat)
    | Published(level: nat)
    | Clearing

  datatype Consumer<F> =
    | Quiet
    | Awake(frames: nat)
    | Playing(from: nat, taken: nat, frames: nat, out: seq<F>, seen: nat, level: nat)
    | Publishing(from: nat, out: seq<F>)

  /// A resync: after `at` frames had been played, `amount` were thrown away.
  datatype Skip = Skip(at: nat, amount: nat)

  /// A read that ran out: the write index it loaded, how many frames that made
  /// the ring hold, and how many frames had been published with their check of
  /// the priming done when it stored the priming.
  datatype Underrun = Underrun(seen: nat, level: nat, checked: nat)

  /// `stream` is everything accepted, `heard` everything delivered and
  /// `played` which position of the stream each delivered frame came from;
  /// `checked` is how many frames have been published with their check of the
  /// priming done and `last` the latest read that ran out.
  datatype State<F> = State(
    capacity: nat, target: nat, buffer: seq<F>, write: nat, read: nat, priming: bool,
    producer: Producer<F>, consumer: Consumer<F>,
    stream: seq<F>, heard: seq<F>, played: seq<nat>, skips: seq<Skip>,
    checked: nat, last: Option<Underrun>)

  datatype Step<F> =
    | WriteBegin(data: seq<F>)
    | WriteCell
    | WritePublish
    | WritePrimeLoad
    | WritePrimeStore
    | ReadBegin(frames: nat)
    | ReadLoad
    | ReadCell
    | ReadEnd
    | ReadPublish

  function WriteStep<F>(s: State<F>, step: Step<F>): Option<State<F>> {
    match (step, s.producer)
    case (WriteBegin(data), Resting) =>
      if data == [] || s.write < s.read then None
      else
        var buffered := s.write - s.read;
        var taken := Min(|data|, Max(s.capacity - buffered, 0));
        Some(if taken <= 0 then s else s.(producer := Copying(data[..taken], buffered, 0)))
    case (WriteCell, Copying(data, buffered, done)) =>
      if done >= |data| || s.capacity == 0 || |s.buffer| != s.capacity then None
      else Some(s.(buffer := s.buffer[Cell(s.write + done, s.capacity) := data[done]],
                   producer := Copying(data, buffered, done + 1)))
    case (WritePublish, Copying(data, buffered, done)) =>
      if done < |data| then None
      else Some(s.(write := s.write + |data|, stream := s.stream + data, producer := Published(buffered + |data|)))
    case (WritePrimeLoad, Published(level)) =>
      Some(if s.priming && level >= s.target then s.(producer := Clearing) else s.(producer := Resting, checked := s.write))
    case (WritePrimeStore, Clearing) => Some(s.(priming := false, producer := Resting, checked := s.write))
    case _ => None
  }

  function ReadStep<F>(s: State<F>, step: Step<F>): Option<State<F>> {
    match (step, s.consumer)
    case (ReadBegin(frames), Quiet) =>
      if frames == 0 then None else Some(if s.priming then s else s.(consumer := Awake(frames)))
    case (ReadLoad, Awake(frames)) =>
      if s.write < s.read then None
      else
        var buffered := s.write - s.read;
        var skip := AudioRing.Resync(buffered, s.target);
        Some(s.(consumer := Playing(s.read + skip, Min(frames, buffered - skip), frames, [], s.write, buffered),
                skips := if skip > 0 then s.skips + [Skip(|s.played|, skip)] else s.skips))
    case (ReadCell, Playing(from, taken, frames, out, seen, level)) =>
      if |out| >= taken || s.capacity == 0 || |s.buffer| != s.capacity then None
      else Some(s.(consumer := Playing(from, taken, frames, out + [s.buffer[Cell(from + |out|, s.capacity)]], seen, level)))
    case (ReadEnd, Playing(from, taken, frames, out, seen, level)) =>
      if |out| < taken then None
      else if taken < frames then
        Some(s.(consumer := Publishing(from, out), priming := true, last := Some(Underrun(seen, level, s.checked))))
      else Some(s.(consumer := Publishing(from, out)))
    case (ReadPublish, Publishing(from, out)) =>
      Some(s.(read := from + |out|, consumer := Quiet, heard := s.heard + out,
              played := s.played + seq(|out|, i => from + i)))
    case _ => None
  }

  function Next<F>(s: State<F>, step: Step<F>): Option<State<F>> {
    if step.WriteBegin? || step.WriteCell? || step.WritePublish? || step.WritePrimeLoad? || step.WritePrimeStore?
    then WriteStep(s, step) else ReadStep(s, step)
  }

  function Run<F>(s: State<F>, steps: seq<Step<F>>): Option<State<F>>
    decreases |steps|
  {
    if steps == [] then Some(s)
    else match Next(s, steps[0])
         case None => None
         case Some(s') => Run(s', steps[1..])
  }

  function Init<F>(capacity: nat, target: nat, silence: F): State<F> {
    State(capacity, target, seq(capacity, i => silence), 0, 0, true, Resting, Quiet, [], [], [], [], 0, None)
  }

  // -------------------------------------------------------------- invariant

  /// Frames thrown away before the i-th frame played.
  function Before(skips: seq<Skip>, i: nat): nat {
    if skips == [] then 0
    else Before(skips[..|skips| - 1], i) + if skips[|skips| - 1].at <= i then skips[|skips| - 1].amount else 0
  }

  function Total(skips: seq<Skip>): nat {
    if skips == [] then 0 else Total(skips[..|skips| - 1]) + skips[|skips| - 1].amount
  }

  ghost predicate CellsOk<F>(s: State<F>) {
    && 0 < s.capacity == |s.buffer|
    && s.read <= s.write == |s.stream| <= s.read + s.capacity
    && (forall p {:trigger Cell(p, s.capacity)} :: s.read <= p < s.write ==> s.buffer[Cell(p, s.capacity)] == s.stream[p])
  }

  ghost predicate ProducerOk<F>(s: State<F>)
    requires CellsOk(s)
  {
    s.producer.Copying? ==>
      && s.producer.done <= |s.producer.data| && s.write + |s.producer.data| <= s.read + s.capacity
      && (forall p {:trigger Cell(p, s.capacity)} :: s.write <= p < s.write + s.producer.done ==>
            s.buffer[Cell(p, s.capacity)] == s.producer.data[p - s.write])
  }

  ghost predicate ConsumerOk<F>(s: State<F>) {
    && (s.consumer.Playing? ==>
          s.read <= s.consumer.from && s.consumer.from + s.consumer.taken <= s.write && |s.consumer.out| <= s.consumer.taken)
    && (s.consumer.Playing? || s.consumer.Publishing? ==>
          s.read <= s.consumer.from && s.consumer.from + |s.consumer.out| <= s.write <= |s.stream|
          && s.consumer.out == s.stream[s.consumer.from..s.consumer.from + |s.consumer.out|])
  }

  /// The position the consumer has got to.
  function Position<F>(s: State<F>): nat {
    if s.consumer.Playing? || s.consumer.Publishing? then s.consumer.from else s.read
  }

  ghost predicate LogOk<F>(s: State<F>) {
    && |s.heard| == |s.played|
    && (forall k :: 0 <= k < |s.skips| ==> s.skips[k].at <= |s.played|)
    && (forall i :: 0 <= i < |s.played| ==> s.played[i] < |s.stream| && s.heard[i] == s.stream[s.played[i]])
    && (forall i :: 0 <= i < |s.played| ==> s.played[i] == i + Before(s.skips, i))
    && Position(s) == |s.played| + Total(s.skips)
  }

  ghost predicate Inv<F>(s: State<F>) { CellsOk(s) && ProducerOk(s) && ConsumerOk(s) && LogOk(s) }

  // ----------------------------------------------------------- preservation

  lemma {:induction false} BeforeAppend(skips: seq<Skip>, skip: Skip, i: nat)
    ensures Before(skips + [skip], i) == Before(skips, i) + if skip.at <= i then skip.amount else 0
    ensures Total(skips + [skip]) == Total(skips) + skip.amount
  {
    assert (skips + [skip])[..|skips|] == skips;
  }

  lemma {:induction false} BeforeIsTotal(skips: seq<Skip>, i: nat)
    requires forall k :: 0 <= k < |skips| ==> skips[k].at <= i
    ensures Before(skips, i) == Total(skips)
  {
    if skips != [] { BeforeIsTotal(skips[..|skips| - 1], i); }
  }

  /// The cell the producer is about to fill holds no published frame.
  lemma WriteCellKeeps<F>(s: State<F>)
    requires Inv(s) && WriteStep(s, WriteCell).Some?
    ensures Inv(WriteStep(s, WriteCell).value)
  {
    var s' := WriteStep(s, WriteCell).value;
    var at := s.write + s.producer.done;
    forall p | s.read <= p < at ensures s'.buffer[Cell(p, s.capacity)] == s.buffer[Cell(p, s.capacity)] {
      CellsDiffer(p, at, s.capacity);
    }
  }

  lemma WritePublishKeeps<F>(s: State<F>)
    requires Inv(s) && WriteStep(s, WritePublish).Some?
    ensures Inv(WriteStep(s, WritePublish).value)
  {
  }

  lemma ReadLoadKeeps<F>(s: State<F>)
    requires Inv(s) && ReadStep(s, ReadLoad).Some?
    ensures Inv(ReadStep(s, ReadLoad).value)
  {
    ReadLoadLog(s);
  }

  lemma ReadLoadLog<F>(s: State<F>)
    requires CellsOk(s) && LogOk(s) && ReadStep(s, ReadLoad).Some?
    ensures LogOk(ReadStep(s, ReadLoad).value)
  {
    var skip := Skip(|s.played|, AudioRing.Resync(s.write - s.read, s.target));
    forall i | 0 <= i < |s.played| ensures Before(s.skips + [skip], i) == Before(s.skips, i) {
      BeforeAppend(s.skips, skip, i);
    }
    BeforeAppend(s.skips, skip, 0);
  }

  lemma ReadPublishKeeps<F>(s: State<F>)
    requires Inv(s) && ReadStep(s, ReadPublish).Some?
    ensures Inv(ReadStep(s, ReadPublish).value)
  {
    var s' := ReadStep(s, ReadPublish).value;
    forall i | |s.played| <= i < |s'.played| ensures s'.played[i] == i + Before(s'.skips, i) {
      BeforeIsTotal(s.skips, i);
    }
  }

  lemma StepKeeps<F>(s: State<F>, step: Step<F>)
    requires Inv(s) && Next(s, step).Some?
    ensures Inv(Next(s, step).value)
  {
    match step {
      case WriteCell => WriteCellKeeps(s);
      case WritePublish => WritePublishKeeps(s);
      case ReadLoad => ReadLoadKeeps(s);
      case ReadPublish => ReadPublishKeeps(s);
      case ReadCell => ReadCellKeeps(s);
      case WriteBegin(_) => WriteBeginKeeps(s, step);
      case _ => OtherKeeps(s, step);
    }
  }

  lemma WriteBeginKeeps<F>(s: State<F>, step: Step<F>)
    requires Inv(s) && step.WriteBegin? && WriteStep(s, step).Some?
    ensures Inv(WriteStep(s, step).value)
  {
  }

  lemma ReadCellKeeps<F>(s: State<F>)
    requires Inv(s) && ReadStep(s, ReadCell).Some?
    ensures Inv(ReadStep(s, ReadCell).value)
  {
    var s' := ReadStep(s, ReadCell).value;
    var from, n := s.consumer.from, |s.consumer.out|;
    assert s.stream[from..from + n + 1] == s.stream[from..from + n] + [s.stream[from + n]];
    assert s.buffer[Cell(from + n, s.capacity)] == s.stream[from + n];
  }

  /// Steps on one thread's own state, or on `priming`.
  lemma OtherKeeps<F>(s: State<F>, step: Step<F>)
    requires Inv(s) && Next(s, step).Some?
    requires step.WritePrimeLoad? || step.WritePrimeStore? || step.ReadBegin? || step.ReadEnd?
    ensures Inv(Next(s, step).value)
  {
    if step.WritePrimeLoad? || step.WritePrimeStore? { ChecksKeep(s, step); } else { ReadEndsKeep(s, step); }
  }

  lemma ChecksKeep<F>(s: State<F>, step: Step<F>)
    requires Inv(s) && (step.WritePrimeLoad? || step.WritePrimeStore?) && WriteStep(s, step).Some?
    ensures Inv(WriteStep(s, step).value)
  {
  }

  lemma ReadEndsKeep<F>(s: State<F>, step: Step<F>)
    requires Inv(s) && (step.ReadBegin? || step.ReadEnd?) && ReadStep(s, step).Some?
    ensures Inv(ReadStep(s, step).value)
  {
  }

  lemma {:induction false} RunKeeps<F>(s: State<F>, steps: seq<Step<F>>)
    requires Inv(s) && Run(s, steps).Some?
    ensures Inv(Run(s, steps).value)
    decreases |steps|
  {
    if steps != [] {
      var s' := Next(s, steps[0]).value;
      assert Inv(s') by { StepKeeps(s, steps[0]); }
      RunKeeps(s', steps[1..]);
    }
  }

  lemma ReachableOk<F>(capacity: nat, target: nat, silence: F, steps: seq<Step<F>>)
    requires 0 < capacity && Run(Init(capacity, target, silence), steps).Some?
    ensures Inv(Run(Init(capacity, target, silence), steps).value)
  {
    RunKeeps(Init(capacity, target, silence), steps);
  }

  // --------------------------------------------------------------- theorems

  /// However the two threads interleave, the counters stay within a ring of
  /// each other, and the cell the producer is writing is none of those the
  /// consumer still has to read.
  lemma NeverOverlap<F>(capacity: nat, target: nat, silence: F, steps: seq<Step<F>>)
    requires 0 < capacity && Run(Init(capacity, target, silence), steps).Some?
    ensures var s := Run(Init(capacity, target, silence), steps).value;
            && 0 < s.capacity && s.read <= s.write <= s.read + s.capacity
            && (s.producer.Copying? && s.producer.done < |s.producer.data| && s.consumer.Playing? ==>
                  forall p {:trigger Cell(p, s.capacity)} :: s.consumer.from <= p < s.consumer.from + s.consumer.taken ==>
                    Cell(p, s.capacity) != Cell(s.write + s.producer.done, s.capacity))
  {
    ReachableOk(capacity, target, silence, steps);
    var s := Run(Init(capacity, target, silence), steps).value;
    if s.producer.Copying? && s.producer.done < |s.producer.data| && s.consumer.Playing? {
      forall p | s.consumer.from <= p < s.consumer.from + s.consumer.taken
        ensures Cell(p, s.capacity) != Cell(s.write + s.producer.done, s.capacity)
      {
        CellsDiffer(p, s.write + s.producer.done, s.capacity);
      }
    }
  }

  /// What is delivered is the accepted stream in order, with gaps only where a
  /// counted resync made one; at rest, everything accepted was delivered,
  /// thrown away by a resync, or is still buffered.
  lemma HeardIsTheStream<F>(capacity: nat, target: nat, silence: F, steps: seq<Step<F>>)
    requires 0 < capacity && Run(Init(capacity, target, silence), steps).Some?
    ensures var s := Run(Init(capacity, target, silence), steps).value;
            && |s.heard| == |s.played|
            && (forall i :: 0 <= i < |s.heard| ==>
                  s.played[i] == i + Before(s.skips, i) < |s.stream| && s.heard[i] == s.stream[s.played[i]])
            && (s.consumer.Quiet? ==> |s.stream| == |s.heard| + Total(s.skips) + (s.write - s.read))
  {
    ReachableOk(capacity, target, silence, steps);
  }

  // ------------------------------------------- when silence does not end

  /// The read loaded an empty ring, and a whole ring of frames was published
  /// with every check of the priming done between that load and its store of
  /// the priming.
  predicate Trapped(u: Underrun, capacity: nat) { u.level == 0 && u.checked - u.seen == capacity }

  /// The write index the last read to run out loaded: where the reader stops.
  function Base<F>(s: State<F>): nat { if s.last.Some? then s.last.value.seen else 0 }

  function Stored<F>(s: State<F>): nat { if s.last.Some? then s.last.value.checked else 0 }

  predicate ChecksOk<F>(s: State<F>) {
    match s.producer
    case Resting => s.checked == s.write
    case Copying(data, buffered, _) => s.checked == s.write && data != [] && s.write <= s.read + buffered
    case Published(level) => s.checked < s.write <= s.read + level
    case Clearing => s.checked < s.write && s.priming
  }

  predicate ReadsOk<F>(s: State<F>) {
    match s.consumer
    case Quiet => s.priming ==> s.read == Base(s)
    case Awake(_) => !s.priming
    case Playing(from, taken, frames, _, seen, level) =>
      !s.priming && seen == s.read + level && from + taken <= seen <= s.write && (taken < frames ==> from + taken == seen)
    case Publishing(from, out) => s.priming ==> s.read <= from + |out| == Base(s)
  }

  predicate LastOk<F>(s: State<F>) {
    s.last.Some? ==>
      var u := s.last.value;
      && u.checked <= s.checked && u.checked + u.level <= u.seen + s.capacity
      && (Trapped(u, s.capacity) ==> s.priming && s.producer.Resting? && s.write == u.seen + s.capacity && s.read == u.seen)
  }

  /// Frames checked since the ring last started priming stay below the target.
  predicate SilenceOk<F>(s: State<F>) {
    && s.target <= s.capacity / 2 && ChecksOk(s) && ReadsOk(s) && LastOk(s)
    && (s.priming && s.checked > Stored(s) ==> s.checked < Base(s) + s.target)
  }

  /// What of the invariant is about the indices.
  predicate Bounds<F>(s: State<F>) {
    && 0 < s.capacity == |s.buffer| && s.read <= s.write <= s.read + s.capacity
    && (s.producer.Copying? ==> s.write + |s.producer.data| <= s.read + s.capacity)
    && (s.consumer.Playing? ==> s.read <= s.consumer.from && |s.consumer.out| <= s.consumer.taken)
    && (s.consumer.Publishing? ==> s.read <= s.consumer.from)
  }

  lemma InvBounds<F>(s: State<F>)
    requires Inv(s)
    ensures Bounds(s)
  {
  }

  lemma SilenceWriteBegin<F>(s: State<F>, step: Step<F>)
    requires Bounds(s) && SilenceOk(s) && step.WriteBegin? && WriteStep(s, step).Some?
    ensures SilenceOk(WriteStep(s, step).value)
  {
  }

  lemma SilenceWrite<F>(s: State<F>, step: Step<F>)
    requires Bounds(s) && SilenceOk(s) && !step.WriteBegin? && WriteStep(s, step).Some?
    ensures SilenceOk(WriteStep(s, step).value)
  {
  }

  lemma SilenceReadLoad<F>(s: State<F>)
    requires Bounds(s) && SilenceOk(s) && ReadStep(s, ReadLoad).Some?
    ensures SilenceOk(ReadStep(s, ReadLoad).value)
  {
  }

  /// The step that starts priming.
  lemma SilenceReadEnd<F>(s: State<F>)
    requires Bounds(s) && SilenceOk(s) && ReadStep(s, ReadEnd).Some?
    ensures SilenceOk(ReadStep(s, ReadEnd).value)
  {
  }

  lemma SilenceRead<F>(s: State<F>, step: Step<F>)
    requires Bounds(s) && SilenceOk(s) && !step.ReadLoad? && !step.ReadEnd? && ReadStep(s, step).Some?
    ensures SilenceOk(ReadStep(s, step).value)
  {
  }

  lemma SilenceStep<F>(s: State<F>, step: Step<F>)
    requires Bounds(s) && SilenceOk(s) && Next(s, step).Some?
    ensures SilenceOk(Next(s, step).value)
    ensures Next(s, step).value.capacity == s.capacity && Next(s, step).value.target == s.target
  {
    match step {
      case WriteBegin(_) => SilenceWriteBegin(s, step);
      case ReadLoad => SilenceReadLoad(s);
      case ReadEnd => SilenceReadEnd(s);
      case WriteCell | WritePublish | WritePrimeLoad | WritePrimeStore => SilenceWrite(s, step);
      case ReadBegin(_) | ReadCell | ReadPublish => SilenceRead(s, step);
    }
  }

  lemma {:induction false} SilenceRun<F>(s: State<F>, steps: seq<Step<F>>)
    requires Inv(s) && SilenceOk(s) && Run(s, steps).Some?
    ensures Bounds(Run(s, steps).value) && SilenceOk(Run(s, steps).value)
    ensures Run(s, steps).value.capacity == s.capacity && Run(s, steps).value.target == s.target
    decreases |steps|
  {
    if steps == [] {
      InvBounds(s);
    } else {
      var s' := Next(s, steps[0]).value;
      assert Inv(s') by { StepKeeps(s, steps[0]); }
      assert SilenceOk(s') && s'.capacity == s.capacity && s'.target == s.target by {
        InvBounds(s);
        SilenceStep(s, steps[0]);
      }
      SilenceRun(s', steps[1..]);
    }
  }

  /// Over every interleaving, with both threads at rest: the ring is full and
  /// priming, for ever, exactly when the last read to run out had loaded an
  /// empty ring and a whole ring was published, its checks done, before that
  /// read stored the priming.
  lemma TrapIff<F>(capacity: nat, target: nat, silence: F, steps: seq<Step<F>>, s: State<F>)
    requires 0 < capacity && target <= capacity / 2 && Run(Init(capacity, target, silence), steps) == Some(s)
    requires s.producer.Resting? && s.consumer.Quiet?
    ensures s.priming && s.write - s.read == capacity <==> s.last.Some? && Trapped(s.last.value, capacity)
  {
    SilenceRun(Init(capacity, target, silence), steps);
    TrapAt(s);
  }

  lemma TrapAt<F>(s: State<F>)
    requires Bounds(s) && SilenceOk(s) && s.producer.Resting? && s.consumer.Quiet?
    ensures s.priming && s.write - s.read == s.capacity <==> s.last.Some? && Trapped(s.last.value, s.capacity)
  {
  }

  /// In any other case there is room, and whole calls of write() end the
  /// silence exactly when they have brought the ring to its target.
  lemma SilenceEndsIff<F>(capacity: nat, target: nat, silence: F, steps: seq<Step<F>>, s: State<F>, frames: seq<nat>)
    requires 0 < capacity && target <= capacity / 2 && Run(Init(capacity, target, silence), steps) == Some(s)
    requires s.producer.Resting? && s.consumer.Quiet? && s.priming
    requires frames != [] && forall i :: 0 <= i < |frames| ==> frames[i] > 0
    ensures s.read <= s.write <= s.read + capacity
    ensures AudioRing.After(AudioRing.Level(s.write - s.read, true), capacity, target, AudioRing.Writes(frames)).priming <==>
              (s.last.Some? && Trapped(s.last.value, capacity)) || s.write - s.read + AudioRing.Sum(frames) < target
  {
    SilenceRun(Init(capacity, target, silence), steps);
    SilenceAt(s, frames);
  }

  lemma SilenceAt<F>(s: State<F>, frames: seq<nat>)
    requires Bounds(s) && SilenceOk(s) && s.producer.Resting? && s.consumer.Quiet? && s.priming
    requires frames != [] && forall i :: 0 <= i < |frames| ==> frames[i] > 0
    ensures AudioRing.After(AudioRing.Level(s.write - s.read, true), s.capacity, s.target, AudioRing.Writes(frames)).priming <==>
              (s.last.Some? && Trapped(s.last.value, s.capacity)) || s.write - s.read + AudioRing.Sum(frames) < s.target
  {
    TrapAt(s);
    WritesEndIt(s.write - s.read, s.capacity, s.target, frames);
  }

  lemma WritesEndIt(level: nat, capacity: nat, target: nat, frames: seq<nat>)
    requires 0 < capacity && target <= capacity / 2 && level <= capacity
    requires frames != [] && forall i :: 0 <= i < |frames| ==> frames[i] > 0
    ensures AudioRing.After(AudioRing.Level(level, true), capacity, target, AudioRing.Writes(frames)).priming <==>
              level == capacity || level + AudioRing.Sum(frames) < target
  {
    if level == capacity {
      AudioRing.FullAndPrimingIsForever(capacity, target, AudioRing.Writes(frames));
    } else {
      AudioRing.SilenceEnds(AudioRing.Level(level, true), capacity, target, frames);
    }
  }

  // Such a run: a whole ring written inside one read of an empty one.

  function PrimeSteps<F>(x: F): seq<Step<F>> {
    [WriteBegin([x]), WriteCell, WritePublish, WritePrimeLoad, WritePrimeStore]
  }

  function DrainSteps<F>(): seq<Step<F>> { [ReadBegin(1), ReadLoad, ReadCell, ReadEnd, ReadPublish] }

  function TrapSteps<F>(x: F): seq<Step<F>> {
    [ReadBegin(1), ReadLoad, WriteBegin([x, x]), WriteCell, WriteCell, WritePublish, WritePrimeLoad, ReadEnd, ReadPublish]
  }

  /// A ring of two frames aiming at one, with one frame in it, and after that
  /// frame has been played.
  function Primed<F>(x: F): State<F> {
    State(2, 1, [x, x], 1, 0, false, Resting, Quiet, [x], [], [], [], 1, None)
  }

  function Drained<F>(x: F): State<F> {
    State(2, 1, [x, x], 1, 1, false, Resting, Quiet, [x], [x], [0], [], 1, None)
  }

  lemma PrimedReached<F>(x: F)
    ensures Run(Init(2, 1, x), PrimeSteps(x)) == Some(Primed(x))
  {
    var s, t := Init(2, 1, x), PrimeSteps(x);
    assert s.buffer == [x, x] && [x][..1] == [x] && [x, x][0 := x] == [x, x] && [] + [x] == [x];
    var s1 := s.(buffer := [x, x], producer := Copying([x], 0, 0));
    var s2 := s1.(producer := Copying([x], 0, 1));
    var s3 := s2.(write := 1, stream := [x], producer := Published(1));
    Unroll(s, t, s1);
    Unroll(s1, t[1..], s2);
    Unroll(s2, t[2..], s3);
    Unroll(s3, t[3..], s3.(producer := Clearing));
    Unroll(s3.(producer := Clearing), t[4..], Primed(x));
  }

  lemma DrainedReached<F>(x: F)
    ensures Run(Primed(x), DrainSteps()) == Some(Drained(x))
  {
    var s, t := Primed(x), DrainSteps<F>();
    var s1 := s.(consumer := Awake(1));
    var s2 := s1.(consumer := Playing(0, 1, 1, [], 1, 1));
    assert [] + [x] == [x];
    var s3 := s2.(consumer := Playing(0, 1, 1, [x], 1, 1));
    var s4 := s3.(consumer := Publishing(0, [x]));
    Unroll(s, t, s1);
    Unroll(s1, t[1..], s2);
    Unroll(s2, t[2..], s3);
    Unroll(s3, t[3..], s4);
    assert seq(1, i => 0 + i) == [0] && [] + [0] == [0];
    Unroll(s4, t[4..], Drained(x));
  }

  lemma Unroll<F>(s: State<F>, steps: seq<Step<F>>, s1: State<F>)
    requires steps != [] && Next(s, steps[0]) == Some(s1)
    ensures Run(s, steps) == Run(s1, steps[1..])
  {
  }

  /// From there the reader, finding nothing, goes back to priming after the
  /// writer has filled the ring: full and priming at once, for good.
  lemma TrapIsReached<F>(x: F)
    ensures Run(Init(2, 1, x), PrimeSteps(x)) == Some(Primed(x)) && Run(Primed(x), DrainSteps()) == Some(Drained(x))
    ensures var end := Run(Drained(x), TrapSteps(x));
            end.Some? && end.value.producer.Resting? && end.value.consumer.Quiet?
            && end.value.priming && end.value.write - end.value.read == end.value.capacity
    ensures forall calls :: AudioRing.After(AudioRing.Level(2, true), 2, 1, calls) == AudioRing.Level(2, true)
  {
    PrimedReached(x);
    DrainedReached(x);
    TrapRuns(x);
    forall calls ensures AudioRing.After(AudioRing.Level(2, true), 2, 1, calls) == AudioRing.Level(2, true) {
      AudioRing.FullAndPrimingIsForever(2, 1, calls);
    }
  }

  lemma TrapRuns<F>(x: F)
    ensures var end := Run(Drained(x), TrapSteps(x));
            end.Some? && end.value.producer.Resting? && end.value.consumer.Quiet?
            && end.value.priming && end.value.write - end.value.read == end.value.capacity
  {
    var t, s := TrapSteps(x), Drained(x);
    var s1 := s.(consumer := Awake(1));
    var s2 := s1.(consumer := Playing(1, 0, 1, [], 1, 0));
    assert [x, x][..2] == [x, x];
    var s3 := s2.(producer := Copying([x, x], 0, 0));
    var s4 := Next(s3, WriteCell).value;
    var s5 := Next(s4, WriteCell).value;
    var s6 := Next(s5, WritePublish).value;
    var s7 := s6.(producer := Resting, checked := 3);
    var s8 := s7.(consumer := Publishing(1, []), priming := true, last := Some(Underrun(1, 0, 3)));
    var s9 := Next(s8, ReadPublish).value;
    Unroll(s, t, s1);
    Unroll(s1, t[1..], s2);
    Unroll(s2, t[2..], s3);
    Unroll(s3, t[3..], s4);
    Unroll(s4, t[4..], s5);
    Unroll(s5, t[5..], s6);
    Unroll(s6, t[6..], s7);
    Unroll(s7, t[7..], s8);
    Unroll(s8, t[8..], s9);
  }
}
