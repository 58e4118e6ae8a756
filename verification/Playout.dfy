/// Scheduled playback: the output's ring and schedule run against the card
/// (src/outputs/decklink_output.cpp: submit, scheduleFrame, reanchorIfBehind,
/// the completion callback and stop; tools/dl_fake_card.cpp: the card's rules).
///
/// The clock thread, the card's hardware and its completion thread interleave
/// at every lock: acquiring a frame, checking the schedule against the
/// playhead, handing the frame over, a frame boundary, taking a completion and
/// delivering it are separate steps, in any order the states allow. The queue
/// is keyed by frame index: display times are the index times the duration.
module Playout {
  import opened Basics
  import opened PlayoutSchedule
  import opened RecycleRing

  datatype Result = Completed | Late | Dropped | Flushed

  datatype Entry = Entry(slot: nat, frame: nat)

  datatype Done = Done(slot: nat, frame: nat, result: Result)

  /// The card: boundaries it has passed, frames scheduled, the one on air and
  /// how it was shown, completions waiting and the one being delivered.
  datatype Card = Card(boundaries: nat, queue: seq<Entry>, onAir: Option<Done>, pending: seq<Done>, delivering: Option<Done>)

  /// The output's thread. `Ready` remembers how many boundaries had passed when
  /// the schedule was checked, unless the card would not say.
  datatype Writer = Resting | Writing(frame: nat) | Ready(frame: nat, seen: Option<nat>)

  datatype Phase = Prerolling | Playing | Stopped

  /// What happened: slots used, the ones still ahead of the card when handed
  /// over, the boundary each was shown at, the ones dropped; whether a boundary
  /// has come between a check and the hand-over; and the playhead at the last
  /// re-anchor with the frames accepted since.
  datatype Log = Log(used: set<nat>, ahead: set<nat>, shown: map<nat, nat>, dropped: set<nat>, slow: bool, anchor: nat, accepted: nat)

  datatype State = State(ring: Ring<nat>, duration: Positive, preroll: Positive, next: nat, reanchors: nat, late: bool,
    strays: nat, phase: Phase, writer: Writer, card: Card, log: Log)

  // ---------------------------------------------------------------- the card

  /// How many frames at the head of the queue are due at boundary `now`.
  function Due(queue: seq<Entry>, now: nat): (n: nat)
    ensures n <= |queue|
    ensures forall i :: 0 <= i < n ==> queue[i].slot <= now
    ensures n < |queue| ==> queue[n].slot > now
  {
    if queue == [] || queue[0].slot > now then 0 else Due(queue[1..], now) + 1
  }

  /// Completions for frames that all end the same way.
  function Ended(queue: seq<Entry>, result: Result): (r: seq<Done>)
    ensures |r| == |queue| && forall i :: 0 <= i < |r| ==> r[i] == Done(queue[i].slot, queue[i].frame, result)
  {
    if queue == [] then [] else [Done(queue[0].slot, queue[0].frame, result)] + Ended(queue[1..], result)
  }

  function OnAirDone(onAir: Option<Done>): seq<Done> { if onAir.Some? then [onAir.value] else [] }

  /// The least late due frame goes on air, the ones it overtook are dropped,
  /// and the one that was on air completes.
  function AtBoundary(c: Card): Card {
    var now, n := c.boundaries, Due(c.queue, c.boundaries);
    if n == 0 then c.(boundaries := now + 1)
    else
      var show := c.queue[n - 1];
      Card(now + 1, c.queue[n..],
           Some(Done(show.slot, show.frame, if show.slot == now then Completed else Late)),
           c.pending + Ended(c.queue[..n - 1], Dropped) + OnAirDone(c.onAir), c.delivering)
  }

  /// Ordered by slot, after any already there.
  function Queued(queue: seq<Entry>, e: Entry): seq<Entry> {
    if queue == [] || queue[0].slot > e.slot then [e] + queue else [queue[0]] + Queued(queue[1..], e)
  }

  function Disabled(c: Card): Card {
    c.(queue := [], onAir := None, pending := c.pending + Ended(c.queue, Flushed) + OnAirDone(c.onAir))
  }

  /// The boundary last passed; 0 until there has been one.
  function Playhead(c: Card): nat { if c.boundaries == 0 then 0 else c.boundaries - 1 }

  class FakeCard {
    var boundaries: nat
    var queue: seq<Entry>
    var onAir: Option<Done>
    var pending: seq<Done>
    var delivering: Option<Done>

    ghost function Model(): Card
      reads this
    {
      Card(boundaries, queue, onAir, pending, delivering)
    }

    constructor ()
      ensures Model() == Card(0, [], None, [], None)
    {
      boundaries, queue, onAir, pending, delivering := 0, [], None, [], None;
    }

    method ScheduleVideoFrame(slot: nat, frame: nat)
      modifies this
      ensures Model() == old(Model()).(queue := Queued(old(queue), Entry(slot, frame)))
    {
      var i := 0;
      while i < |queue| && queue[i].slot <= slot
        invariant i <= |queue| && queue == old(queue) && Model() == old(Model())
        invariant Queued(queue, Entry(slot, frame)) == queue[..i] + Queued(queue[i..], Entry(slot, frame))
      {
        assert queue[..i + 1] == queue[..i] + [queue[i]];
        i := i + 1;
      }
      queue := queue[..i] + [Entry(slot, frame)] + queue[i..];
      assert queue == old(queue)[..i] + ([Entry(slot, frame)] + old(queue)[i..]);
    }

    /// One pass of the hardware loop.
    method FrameBoundary()
      modifies this
      ensures Model() == AtBoundary(old(Model()))
    {
      var now := boundaries;
      var show := TakeDue(now);
      if show.Some? {
        if onAir.Some? {
          pending := pending + [onAir.value];
        }
        onAir := Some(Done(show.value.slot, show.value.frame, if show.value.slot == now then Completed else Late));
      }
      boundaries := now + 1;
    }

    /// Takes every due frame off the queue: the last is to be shown, the ones
    /// it overtook are dropped.
    method TakeDue(now: nat) returns (show: Option<Entry>)
      modifies this`queue, this`pending
      ensures var n := Due(old(queue), now);
              && queue == old(queue)[n..]
              && show == (if n == 0 then None else Some(old(queue)[n - 1]))
              && pending == old(pending) + if n == 0 then [] else Ended(old(queue)[..n - 1], Dropped)
    {
      show := None;
      ghost var i := 0;
      while queue != [] && queue[0].slot <= now
        modifies this`queue, this`pending
        invariant i <= |old(queue)| && queue == old(queue)[i..] && Due(old(queue), now) == i + Due(queue, now)
        invariant show == if i == 0 then None else Some(old(queue)[i - 1])
        invariant pending == old(pending) + if i == 0 then [] else Ended(old(queue)[..i - 1], Dropped)
        decreases |queue|
      {
        if show.Some? {
          EndedAppend(old(queue)[..i - 1], show.value, Dropped);
          assert old(queue)[..i - 1] + [show.value] == old(queue)[..i];
          pending := pending + [Done(show.value.slot, show.value.frame, Dropped)];
        }
        show := Some(queue[0]);
        queue := queue[1..];
        i := i + 1;
      }
    }

    /// Everything still scheduled is flushed, and the frame on air completes.
    method DisableVideoOutput()
      modifies this
      ensures Model() == Disabled(old(Model()))
    {
      ghost var waiting := pending;
      for i := 0 to |queue|
        invariant queue == old(queue) && Model() == old(Model()).(pending := pending)
        invariant pending == waiting + Ended(queue[..i], Flushed)
      {
        EndedAppend(queue[..i], queue[i], Flushed);
        assert queue[..i] + [queue[i]] == queue[..i + 1];
        pending := pending + [Done(queue[i].slot, queue[i].frame, Flushed)];
      }
      assert queue[..|queue|] == queue;
      queue := [];
      if onAir.Some? {
        pending := pending + [onAir.value];
        onAir := None;
      }
    }
  }

  lemma {:induction false} EndedAppend(q: seq<Entry>, e: Entry, result: Result)
    ensures Ended(q + [e], result) == Ended(q, result) + [Done(e.slot, e.frame, result)]
  {
    assert forall i :: 0 <= i < |q| ==> Ended(q + [e], result)[i] == Done((q + [e])[i].slot, (q + [e])[i].frame, result);
  }

  // ------------------------------------------------------------- the machine

  datatype Step = Acquire | WriteFails | Check(answered: bool) | HandOver(accepted: bool) | Start
    | Boundary | Pop | Deliver | Stop

  function Begin(frames: nat, duration: Positive, preroll: Positive): State {
    State(Ring(seq(frames, i => Slot(i, true)), false, 0, 0, 0), duration, preroll, 0, 0, false, 0, Prerolling, Resting,
          Card(0, [], None, [], None), Log({}, {}, map[], {}, false, 0, 0))
  }

  function DoAcquire(s: State): Option<State> {
    if s.phase.Stopped? || !s.writer.Resting? then None
    else
      var (ring, item) := Acquired(s.ring);
      Some(s.(ring := ring, writer := if item.Some? then Writing(item.value) else Resting))
  }

  /// The frame goes back to the ring without having been scheduled.
  function GiveBack(s: State, frame: nat): State {
    s.(ring := Released(s.ring, frame).0, writer := Resting)
  }

  /// The schedule has been checked and its next index is `next`.
  function CheckedAt(s: State, next: nat): State
    requires s.writer.Writing?
  {
    var checked := s.(next := next, late := false, writer := Ready(s.writer.frame, Some(s.card.boundaries)));
    if next == s.next then checked
    else checked.(reanchors := s.reanchors + 1, log := s.log.(anchor := Playhead(s.card), accepted := 0))
  }

  function NextIndex(s: State): nat {
    Checked(s.next, s.duration, s.preroll, Times(Playhead(s.card), s.duration), s.late)
  }

  /// Before playback starts there is no playhead to ask for; a card that will
  /// not answer leaves the late report for the next frame.
  function DoCheck(s: State, answered: bool): Option<State> {
    if !s.writer.Writing? then None
    else if !s.phase.Playing? || !answered then Some(s.(writer := Ready(s.writer.frame, None)))
    else Some(CheckedAt(s, NextIndex(s)))
  }

  function DoHandOver(s: State, accepted: bool): Option<State> {
    if !s.writer.Ready? then None
    else if !accepted then Some(GiveBack(s, s.writer.frame))
    else
      var slot, nb := s.next, s.card.boundaries;
      Some(s.(next := slot + 1, writer := Resting,
              card := s.card.(queue := Queued(s.card.queue, Entry(slot, s.writer.frame))),
              log := s.log.(used := s.log.used + {slot}, accepted := s.log.accepted + 1,
                            ahead := if slot >= nb then s.log.ahead + {slot} else s.log.ahead,
                            slow := s.log.slow || (s.phase.Playing? && s.writer.seen != Some(nb)))))
  }

  function BoundaryLog(queue: seq<Entry>, now: nat, log: Log): Log {
    var n := Due(queue, now);
    if n == 0 then log
    else log.(shown := log.shown[queue[n - 1].slot := now], dropped := log.dropped + Slots(queue[..n - 1]))
  }

  function DoBoundary(s: State): Option<State> {
    if !s.phase.Playing? then None
    else Some(s.(card := AtBoundary(s.card), log := BoundaryLog(s.card.queue, s.card.boundaries, s.log)))
  }

  function Slots(queue: seq<Entry>): set<nat> { set e | e in queue :: e.slot }

  function DoDeliver(s: State): Option<State> {
    match s.card.delivering
    case None => None
    case Some(done) =>
      var (ring, taken) := Released(s.ring, done.frame);
      Some(s.(ring := ring, card := s.card.(delivering := None), strays := s.strays + if taken then 0 else 1,
              late := s.late || done.result.Late? || done.result.Dropped?))
  }

  function Next(s: State, step: Step): Option<State> {
    match step
    case Acquire => DoAcquire(s)
    case WriteFails => if s.writer.Writing? then Some(GiveBack(s, s.writer.frame)) else None
    case Check(answered) => DoCheck(s, answered)
    case HandOver(accepted) => DoHandOver(s, accepted)
    case Start =>
      if s.phase.Prerolling? && s.writer.Resting? && s.next == s.preroll
      then Some(s.(phase := Playing, log := s.log.(anchor := 0, accepted := 0))) else None
    case Boundary => DoBoundary(s)
    case Pop =>
      if s.card.delivering.Some? || s.card.pending == [] then None
      else Some(s.(card := s.card.(pending := s.card.pending[1..], delivering := Some(s.card.pending[0]))))
    case Deliver => DoDeliver(s)
    case Stop =>
      if s.phase.Playing? && s.writer.Resting? then Some(s.(phase := Stopped, card := Disabled(s.card))) else None
  }

  function Run(s: State, steps: seq<Step>): Option<State>
    decreases |steps|
  {
    if steps == [] then Some(s)
    else
      var s' := Next(s, steps[0]);
      if s'.None? then None else Run(s'.value, steps[1..])
  }

  // -------------------------------------------------------- where frames are

  function QueueFrames(q: seq<Entry>): multiset<nat> {
    if q == [] then multiset{} else multiset{q[0].frame} + QueueFrames(q[1..])
  }

  function DoneFrames(p: seq<Done>): multiset<nat> {
    if p == [] then multiset{} else multiset{p[0].frame} + DoneFrames(p[1..])
  }

  function CardFrames(c: Card): multiset<nat> {
    QueueFrames(c.queue) + DoneFrames(OnAirDone(c.onAir)) + DoneFrames(c.pending) + DoneFrames(OnAirDone(c.delivering))
  }

  function WriterFrames(w: Writer): multiset<nat> {
    match w
    case Resting => multiset{}
    case Writing(f) => multiset{f}
    case Ready(f, _) => multiset{f}
  }

  function Frames(s: State): multiset<nat> { CardFrames(s.card) + WriterFrames(s.writer) }

  /// The frames that are out of the ring are exactly those in `held`, each in
  /// one place, and the ring has never been given back a frame it did not miss.
  ghost predicate Balanced(ring: Ring<nat>, held: multiset<nat>) {
    && !ring.closed && ring.doubleReleases == 0 && ring.strangers == 0
    && (forall i :: 0 <= i < |ring.slots| ==> ring.slots[i].item == i)
    && (forall f: nat :: f in held ==> f < |ring.slots|)
    && (forall f :: 0 <= f < |ring.slots| ==> held[f] == if ring.slots[f].free then 0 else 1)
  }

  /// A frame is in exactly one place: free in the ring, being written, or with
  /// the card.
  ghost predicate FramesOk(s: State) { Balanced(s.ring, Frames(s)) && s.strays == 0 }

  lemma {:induction false} QueueFramesOfSum(a: seq<Entry>, b: seq<Entry>)
    ensures QueueFrames(a + b) == QueueFrames(a) + QueueFrames(b)
  {
    if a == [] {
      assert a + b == b;
    } else {
      assert (a + b)[1..] == a[1..] + b;
      QueueFramesOfSum(a[1..], b);
    }
  }

  lemma {:induction false} DoneFramesOfSum(a: seq<Done>, b: seq<Done>)
    ensures DoneFrames(a + b) == DoneFrames(a) + DoneFrames(b)
  {
    if a == [] {
      assert a + b == b;
    } else {
      assert (a + b)[1..] == a[1..] + b;
      DoneFramesOfSum(a[1..], b);
    }
  }

  lemma {:induction false} EndedFrames(q: seq<Entry>, result: Result)
    ensures DoneFrames(Ended(q, result)) == QueueFrames(q)
  {
    if q != [] {
      EndedFrames(q[1..], result);
      assert Ended(q, result)[1..] == Ended(q[1..], result);
    }
  }

  lemma {:induction false} QueuedFrames(q: seq<Entry>, e: Entry)
    ensures QueueFrames(Queued(q, e)) == QueueFrames(q) + multiset{e.frame}
  {
    if q == [] || q[0].slot > e.slot {
      assert ([e] + q)[1..] == q;
    } else {
      QueuedFrames(q[1..], e);
      assert Queued(q, e)[1..] == Queued(q[1..], e);
    }
  }

  lemma OneDone(d: Done)
    ensures DoneFrames([d]) == multiset{d.frame}
  {
  }

  /// No frame is lost or made at a boundary.
  lemma BoundaryKeepsFrames(c: Card)
    ensures CardFrames(AtBoundary(c)) == CardFrames(c)
  {
    var n := Due(c.queue, c.boundaries);
    if n > 0 {
      var over, show, rest, air := c.queue[..n - 1], c.queue[n - 1], c.queue[n..], OnAirDone(c.onAir);
      assert c.queue == over + ([show] + rest);
      QueueFramesOfSum(over, [show] + rest);
      assert ([show] + rest)[1..] == rest;
      EndedFrames(over, Dropped);
      DoneFramesOfSum(c.pending + Ended(over, Dropped), air);
      DoneFramesOfSum(c.pending, Ended(over, Dropped));
      OneDone(AtBoundary(c).onAir.value);
    }
  }

  lemma DisableKeepsFrames(c: Card)
    ensures CardFrames(Disabled(c)) == CardFrames(c)
  {
    EndedFrames(c.queue, Flushed);
    DoneFramesOfSum(c.pending + Ended(c.queue, Flushed), OnAirDone(c.onAir));
    DoneFramesOfSum(c.pending, Ended(c.queue, Flushed));
  }

  lemma PopKeepsFrames(c: Card)
    requires c.pending != [] && c.delivering == None
    ensures CardFrames(c.(pending := c.pending[1..], delivering := Some(c.pending[0]))) == CardFrames(c)
  {
    OneDone(c.pending[0]);
  }

  lemma RingMoves(slots: seq<Slot<nat>>, f: nat)
    requires forall i :: 0 <= i < |slots| ==> slots[i].item == i
    requires f < |slots|
    ensures FirstOf(slots, f) == f
  {
    assert forall j :: 0 <= j < FirstOf(slots, f) ==> slots[j].item != f;
    assert slots[f].item == f;
  }

  /// The ring hands out a frame nobody has.
  lemma AcquireBalances(ring: Ring<nat>, held: multiset<nat>)
    requires Balanced(ring, held)
    ensures var (after, item) := Acquired(ring);
            match item
            case None => Balanced(after, held)
            case Some(f) => f !in held && Balanced(after, held + multiset{f})
  {
    var i := FirstFree(ring.slots);
    if i < |ring.slots| {
      assert ring.slots[i].item == i;
    }
  }

  /// It takes back any frame somebody has.
  lemma ReleaseBalances(ring: Ring<nat>, held: multiset<nat>, f: nat)
    requires Balanced(ring, held) && f in held
    ensures var (after, taken) := Released(ring, f); taken && Balanced(after, held - multiset{f})
  {
    RingMoves(ring.slots, f);
    assert !ring.slots[f].free;
  }

  lemma AcquireKeepsFrames(s: State)
    requires FramesOk(s) && DoAcquire(s).Some?
    ensures FramesOk(DoAcquire(s).value)
  {
    AcquireBalances(s.ring, Frames(s));
    var s' := DoAcquire(s).value;
    assert s'.writer.Writing? ==> Frames(s') == Frames(s) + multiset{s'.writer.frame};
  }

  lemma GiveBackKeepsFrames(s: State, f: nat)
    requires FramesOk(s) && WriterFrames(s.writer) == multiset{f}
    ensures FramesOk(GiveBack(s, f))
  {
    ReleaseBalances(s.ring, Frames(s), f);
    assert Frames(GiveBack(s, f)) == Frames(s) - multiset{f};
  }

  lemma HandOverKeepsFrames(s: State)
    requires FramesOk(s) && DoHandOver(s, true).Some?
    ensures FramesOk(DoHandOver(s, true).value)
  {
    QueuedFrames(s.card.queue, Entry(s.next, s.writer.frame));
    assert Frames(DoHandOver(s, true).value) == Frames(s);
  }

  lemma DeliverKeepsFrames(s: State)
    requires FramesOk(s) && DoDeliver(s).Some?
    ensures FramesOk(DoDeliver(s).value)
  {
    var f := s.card.delivering.value.frame;
    OneDone(s.card.delivering.value);
    ReleaseBalances(s.ring, Frames(s), f);
    assert Frames(DoDeliver(s).value) == Frames(s) - multiset{f};
  }

  lemma CheckedKeepsFrames(s: State, next: nat)
    requires s.writer.Writing?
    ensures Frames(CheckedAt(s, next)) == Frames(s)
    ensures Frames(s.(writer := Ready(s.writer.frame, None))) == Frames(s)
  {
  }

  lemma CheckKeepsFrames(s: State, answered: bool)
    requires FramesOk(s) && DoCheck(s, answered).Some?
    ensures FramesOk(DoCheck(s, answered).value)
  {
    CheckedKeepsFrames(s, NextIndex(s));
  }

  lemma FramesStepKeeps(s: State, step: Step)
    requires FramesOk(s) && Next(s, step).Some?
    ensures FramesOk(Next(s, step).value)
  {
    match step
    case Acquire => AcquireKeepsFrames(s);
    case WriteFails => GiveBackKeepsFrames(s, s.writer.frame);
    case HandOver(accepted) =>
      if accepted { HandOverKeepsFrames(s); } else { GiveBackKeepsFrames(s, s.writer.frame); }
    case Deliver => DeliverKeepsFrames(s);
    case Boundary => BoundaryKeepsFrames(s.card);
    case Pop => PopKeepsFrames(s.card);
    case Stop => DisableKeepsFrames(s.card);
    case Check(answered) => CheckKeepsFrames(s, answered);
    case Start =>
  }

  // ------------------------------------------------------ what slots are for

  /// The queue runs in slot order, and a slot in it was ahead of the card when
  /// it was handed over exactly when it still is.
  ghost predicate QueueOk(queue: seq<Entry>, nb: nat, log: Log) {
    && (forall i, j :: 0 <= i < j < |queue| ==> queue[i].slot < queue[j].slot)
    && (forall i :: 0 <= i < |queue| ==> WaitingOk(queue[i].slot, nb, log))
  }

  ghost predicate WaitingOk(slot: nat, nb: nat, log: Log) {
    slot in log.used && slot !in log.shown && slot !in log.dropped && (slot in log.ahead <==> slot >= nb)
  }

  /// A slot that was ahead is shown at its own boundary; one that was not is
  /// shown later, or dropped.
  ghost predicate SlotOk(slot: nat, nb: nat, log: Log) {
    && (slot in log.ahead || slot in log.shown || slot in log.dropped ==> slot in log.used)
    && (slot in log.ahead && slot < nb ==> slot in log.shown)
    && (slot in log.shown ==>
          && log.shown[slot] < nb && slot !in log.dropped
          && (if slot in log.ahead then log.shown[slot] == slot else log.shown[slot] > slot))
    && (slot in log.dropped ==> slot !in log.ahead)
  }

  ghost predicate LogOk(next: nat, nb: nat, log: Log) {
    && (forall slot: nat :: slot in log.used ==> slot < next)
    && (forall slot: nat :: SlotOk(slot, nb, log))
    && (!log.slow ==> forall slot: nat :: slot in log.used ==> slot in log.ahead)
  }

  ghost predicate Waits(queue: seq<Entry>, slot: nat) {
    exists i :: 0 <= i < |queue| && queue[i].slot == slot
  }

  ghost predicate NoneLost(queue: seq<Entry>, log: Log) {
    forall slot: nat :: slot in log.used ==> slot in log.shown || slot in log.dropped || Waits(queue, slot)
  }

  /// What the card reports of a frame.
  ghost predicate DoneOk(d: Done, log: Log) {
    && d.slot in log.used
    && (d.result.Completed? ==> d.slot in log.ahead)
    && (d.result.Late? || d.result.Dropped? ==> d.slot !in log.ahead)
  }

  ghost predicate DonesOk(p: seq<Done>, log: Log) { forall i :: 0 <= i < |p| ==> DoneOk(p[i], log) }

  ghost predicate Overtaken(log: Log) { exists slot: nat :: slot in log.used && slot !in log.ahead }

  ghost predicate ReportsOk(c: Card, late: bool, log: Log) {
    && DonesOk(c.pending, log) && DonesOk(OnAirDone(c.onAir), log) && DonesOk(OnAirDone(c.delivering), log)
    && (late ==> Overtaken(log))
  }

  ghost predicate WriterOk(s: State) {
    && (s.phase.Prerolling? ==> s.card.boundaries == 0)
    && (s.phase.Stopped? ==> s.writer.Resting? && s.card.queue == [] && s.card.onAir.None?)
    && (s.writer.Ready? && s.writer.seen.Some? ==>
          s.phase.Playing? && s.writer.seen.value <= s.card.boundaries && s.writer.seen.value <= s.next)
  }

  /// How far the schedule is ahead, counted from the last re-anchor: the
  /// preroll, a slot for every frame accepted, and nothing else.
  ghost predicate AnchorOk(s: State) {
    s.phase.Playing? ==> s.next == s.log.anchor + s.preroll + s.log.accepted && s.log.anchor <= Playhead(s.card)
  }

  ghost predicate SlotsOk(s: State) {
    && QueueOk(s.card.queue, s.card.boundaries, s.log)
    && LogOk(s.next, s.card.boundaries, s.log)
    && (s.phase.Stopped? || NoneLost(s.card.queue, s.log))
    && ReportsOk(s.card, s.late, s.log)
    && WriterOk(s) && AnchorOk(s)
  }

  ghost predicate Inv(s: State) { FramesOk(s) && SlotsOk(s) }

  lemma {:induction false} QueuedIsLast(q: seq<Entry>, e: Entry)
    requires forall i :: 0 <= i < |q| ==> q[i].slot < e.slot
    ensures Queued(q, e) == q + [e]
  {
    if q != [] {
      assert q[0].slot < e.slot;
      QueuedIsLast(q[1..], e);
      assert q == [q[0]] + q[1..];
    }
  }

  /// Handing over slot `next`.
  function Used(log: Log, slot: nat, nb: nat, slow: bool): Log {
    log.(used := log.used + {slot}, accepted := log.accepted + 1,
         ahead := if slot >= nb then log.ahead + {slot} else log.ahead, slow := log.slow || slow)
  }

  lemma HandOverKeepsLog(next: nat, nb: nat, log: Log, slow: bool)
    requires LogOk(next, nb, log) && (slow || next >= nb)
    ensures LogOk(next + 1, nb, Used(log, next, nb, slow))
  {
    var log' := Used(log, next, nb, slow);
    assert SlotOk(next, nb, log) && next !in log.used;
    forall slot: nat ensures SlotOk(slot, nb, log') { assert SlotOk(slot, nb, log); }
  }

  lemma HandOverKeepsQueue(queue: seq<Entry>, e: Entry, nb: nat, log: Log, slow: bool)
    requires QueueOk(queue, nb, log) && LogOk(e.slot, nb, log)
    ensures QueueOk(Queued(queue, e), nb, Used(log, e.slot, nb, slow)) && Queued(queue, e) == queue + [e]
  {
    forall i | 0 <= i < |queue| ensures queue[i].slot < e.slot { assert WaitingOk(queue[i].slot, nb, log); }
    QueuedIsLast(queue, e);
    var queue', log' := Queued(queue, e), Used(log, e.slot, nb, slow);
    assert SlotOk(e.slot, nb, log);
    forall i | 0 <= i < |queue'| ensures WaitingOk(queue'[i].slot, nb, log') {
      if i < |queue| { assert WaitingOk(queue[i].slot, nb, log); }
    }
  }

  lemma HandOverLosesNone(queue: seq<Entry>, e: Entry, nb: nat, log: Log, slow: bool)
    requires NoneLost(queue, log)
    ensures NoneLost(queue + [e], Used(log, e.slot, nb, slow))
  {
    var queue', log' := queue + [e], Used(log, e.slot, nb, slow);
    forall slot: nat | slot in log'.used ensures slot in log'.shown || slot in log'.dropped || Waits(queue', slot) {
      if slot == e.slot {
        assert queue'[|queue|].slot == slot;
      } else if Waits(queue, slot) {
        var i :| 0 <= i < |queue| && queue[i].slot == slot;
        assert queue'[i].slot == slot;
      }
    }
  }

  lemma HandOverKeepsReports(c: Card, late: bool, log: Log, next: nat, nb: nat, slow: bool)
    requires ReportsOk(c, late, log) && next !in log.used
    ensures ReportsOk(c, late, Used(log, next, nb, slow))
  {
    var log' := Used(log, next, nb, slow);
    forall d | DoneOk(d, log) ensures DoneOk(d, log') {}
    if late {
      var slot: nat :| slot in log.used && slot !in log.ahead;
      assert slot in log'.used && slot !in log'.ahead;
    }
  }

  lemma HandOverKeeps(s: State)
    requires SlotsOk(s) && DoHandOver(s, true).Some?
    ensures SlotsOk(DoHandOver(s, true).value)
  {
    var nb := s.card.boundaries;
    var slow := s.phase.Playing? && s.writer.seen != Some(nb);
    var e := Entry(s.next, s.writer.frame);
    HandOverKeepsQueue(s.card.queue, e, nb, s.log, slow);
    HandOverKeepsLog(s.next, nb, s.log, slow);
    HandOverLosesNone(s.card.queue, e, nb, s.log, slow);
    HandOverKeepsReports(s.card, s.late, s.log, s.next, nb, slow);
  }

  lemma CheckKeeps(s: State, answered: bool)
    requires SlotsOk(s) && DoCheck(s, answered).Some?
    ensures SlotsOk(DoCheck(s, answered).value)
  {
    var next, p := NextIndex(s), Playhead(s.card);
    CheckOnFrame(s.next, s.duration, s.preroll, p, s.late);
    CheckedKeeps(s, next);
  }

  /// A frame checked against the playhead is ahead of it.
  lemma CheckedKeeps(s: State, next: nat)
    requires SlotsOk(s) && s.writer.Writing? && next == if s.next > Playhead(s.card) then s.next else Playhead(s.card) + s.preroll
    ensures SlotsOk(s.(writer := Ready(s.writer.frame, None)))
    ensures s.phase.Playing? ==> SlotsOk(CheckedAt(s, next))
  {
    var after := CheckedAt(s, next).log;
    AnchorMoves(s.card, s.next, next, s.late, s.log, after);
  }

  lemma AnchorMoves(c: Card, next: nat, next': nat, late: bool, log: Log, log': Log)
    requires QueueOk(c.queue, c.boundaries, log) && LogOk(next, c.boundaries, log) && ReportsOk(c, late, log)
    requires next <= next' && log' == log.(anchor := log'.anchor, accepted := log'.accepted)
    ensures QueueOk(c.queue, c.boundaries, log') && LogOk(next', c.boundaries, log') && ReportsOk(c, false, log')
    ensures NoneLost(c.queue, log) ==> NoneLost(c.queue, log')
  {
    forall i | 0 <= i < |c.queue| ensures WaitingOk(c.queue[i].slot, c.boundaries, log') {
      assert WaitingOk(c.queue[i].slot, c.boundaries, log);
    }
    forall slot: nat ensures SlotOk(slot, c.boundaries, log') { assert SlotOk(slot, c.boundaries, log); }
    forall d | DoneOk(d, log) ensures DoneOk(d, log') {}
  }

  // ------------------------------------------------------------- a boundary

  lemma InSlots(queue: seq<Entry>, slot: nat)
    ensures slot in Slots(queue) <==> Waits(queue, slot)
  {
    if slot in Slots(queue) {
      var e :| e in queue && e.slot == slot;
      var i :| 0 <= i < |queue| && queue[i] == e;
    }
    if Waits(queue, slot) {
      var i :| 0 <= i < |queue| && queue[i].slot == slot;
      assert queue[i] in queue;
    }
  }

  /// The slot due now, if it was used, is the one shown: anything before it is
  /// dropped and anything after it stays.
  lemma DueSlot(queue: seq<Entry>, now: nat)
    requires forall i, j :: 0 <= i < j < |queue| ==> queue[i].slot < queue[j].slot
    requires Waits(queue, now)
    ensures Due(queue, now) > 0 && queue[Due(queue, now) - 1].slot == now
  {
    var i :| 0 <= i < |queue| && queue[i].slot == now;
    var n := Due(queue, now);
    assert n < |queue| ==> queue[n].slot > now;
    assert i < n;
    assert queue[i].slot <= queue[n - 1].slot;
  }

  lemma BoundaryKeepsSlot(queue: seq<Entry>, now: nat, log: Log, next: nat, slot: nat)
    requires QueueOk(queue, now, log) && LogOk(next, now, log) && NoneLost(queue, log)
    ensures SlotOk(slot, now + 1, BoundaryLog(queue, now, log))
  {
    var n := Due(queue, now);
    assert SlotOk(slot, now, log);
    if slot in log.ahead && slot == now {
      assert slot in log.used && slot !in log.shown && slot !in log.dropped;
      DueSlot(queue, now);
    }
    if n > 0 {
      assert WaitingOk(queue[n - 1].slot, now, log);
      InSlots(queue[..n - 1], slot);
      if Waits(queue[..n - 1], slot) {
        var i :| 0 <= i < n - 1 && queue[i].slot == slot;
        assert WaitingOk(queue[i].slot, now, log) && queue[i].slot < queue[n - 1].slot;
      }
    }
  }

  lemma BoundaryKeepsQueue(queue: seq<Entry>, now: nat, log: Log)
    requires QueueOk(queue, now, log)
    ensures QueueOk(queue[Due(queue, now)..], now + 1, BoundaryLog(queue, now, log))
  {
    var n, log' := Due(queue, now), BoundaryLog(queue, now, log);
    var rest := queue[n..];
    forall i | 0 <= i < |rest| ensures WaitingOk(rest[i].slot, now + 1, log') {
      assert rest[i] == queue[n + i] && WaitingOk(queue[n + i].slot, now, log);
      assert queue[n].slot <= queue[n + i].slot;
      if n > 0 {
        InSlots(queue[..n - 1], rest[i].slot);
      }
    }
  }

  lemma BoundaryLosesNone(queue: seq<Entry>, now: nat, log: Log)
    requires NoneLost(queue, log)
    ensures NoneLost(queue[Due(queue, now)..], BoundaryLog(queue, now, log))
  {
    var n, log' := Due(queue, now), BoundaryLog(queue, now, log);
    forall slot: nat | slot in log'.used ensures slot in log'.shown || slot in log'.dropped || Waits(queue[n..], slot) {
      if Waits(queue, slot) {
        var i :| 0 <= i < |queue| && queue[i].slot == slot;
        if i >= n {
          assert queue[n..][i - n].slot == slot;
        } else if i < n - 1 {
          assert queue[..n - 1][i].slot == slot;
          InSlots(queue[..n - 1], slot);
        }
      }
    }
  }

  lemma BoundaryKeepsReports(c: Card, late: bool, log: Log)
    requires QueueOk(c.queue, c.boundaries, log) && ReportsOk(c, late, log)
    ensures ReportsOk(AtBoundary(c), late, BoundaryLog(c.queue, c.boundaries, log))
  {
    var n, now, log' := Due(c.queue, c.boundaries), c.boundaries, BoundaryLog(c.queue, c.boundaries, log);
    forall d | DoneOk(d, log) ensures DoneOk(d, log') {}
    if n > 0 {
      var over := Ended(c.queue[..n - 1], Dropped);
      forall i | 0 <= i < |over| ensures DoneOk(over[i], log') {
        assert WaitingOk(c.queue[i].slot, now, log) && c.queue[i].slot < c.queue[n - 1].slot;
      }
      assert WaitingOk(c.queue[n - 1].slot, now, log);
    }
  }

  lemma BoundaryKeepsLog(queue: seq<Entry>, now: nat, log: Log, next: nat)
    requires QueueOk(queue, now, log) && LogOk(next, now, log) && NoneLost(queue, log)
    ensures LogOk(next, now + 1, BoundaryLog(queue, now, log))
  {
    var later, after := now + 1, BoundaryLog(queue, now, log);
    forall slot: nat ensures SlotOk(slot, later, after) {
      BoundaryKeepsSlot(queue, now, log, next, slot);
    }
  }

  lemma BoundaryKeepsParts(c: Card, late: bool, log: Log, next: nat)
    requires QueueOk(c.queue, c.boundaries, log) && LogOk(next, c.boundaries, log) && NoneLost(c.queue, log)
    requires ReportsOk(c, late, log)
    ensures var c', log' := AtBoundary(c), BoundaryLog(c.queue, c.boundaries, log);
            && QueueOk(c'.queue, c'.boundaries, log') && LogOk(next, c'.boundaries, log') && NoneLost(c'.queue, log')
            && ReportsOk(c', late, log')
  {
    AtBoundaryQueue(c, log);
    BoundaryKeepsQueue(c.queue, c.boundaries, log);
    BoundaryKeepsLog(c.queue, c.boundaries, log, next);
    BoundaryLosesNone(c.queue, c.boundaries, log);
    BoundaryKeepsReports(c, late, log);
  }

  lemma BoundaryKeeps(s: State)
    requires SlotsOk(s) && DoBoundary(s).Some?
    ensures SlotsOk(DoBoundary(s).value)
  {
    BoundaryKeepsParts(s.card, s.late, s.log, s.next);
    AtBoundaryQueue(s.card, s.log);
    BoundaryAssembles(s, AtBoundary(s.card), BoundaryLog(s.card.queue, s.card.boundaries, s.log));
  }

  lemma AtBoundaryQueue(c: Card, log: Log)
    ensures AtBoundary(c).queue == c.queue[Due(c.queue, c.boundaries)..] && AtBoundary(c).boundaries == c.boundaries + 1
    ensures var log' := BoundaryLog(c.queue, c.boundaries, log); log'.anchor == log.anchor && log'.accepted == log.accepted
  {
  }

  lemma BoundaryAssembles(s: State, c: Card, log: Log)
    requires s.phase.Playing? && WriterOk(s) && AnchorOk(s)
    requires c.boundaries == s.card.boundaries + 1 && log.anchor == s.log.anchor && log.accepted == s.log.accepted
    requires QueueOk(c.queue, c.boundaries, log) && LogOk(s.next, c.boundaries, log) && NoneLost(c.queue, log)
    requires ReportsOk(c, s.late, log)
    ensures SlotsOk(s.(card := c, log := log))
  {
  }

  // ------------------------------------------------------- the other steps

  lemma DisableKeepsReports(c: Card, late: bool, log: Log)
    requires QueueOk(c.queue, c.boundaries, log) && ReportsOk(c, late, log)
    ensures ReportsOk(Disabled(c), late, log)
  {
    var flushed := Ended(c.queue, Flushed);
    forall i | 0 <= i < |flushed| ensures DoneOk(flushed[i], log) { assert WaitingOk(c.queue[i].slot, c.boundaries, log); }
  }

  lemma DeliverKeeps(s: State)
    requires SlotsOk(s) && DoDeliver(s).Some?
    ensures SlotsOk(DoDeliver(s).value)
  {
    var done := s.card.delivering.value;
    assert DoneOk(OnAirDone(s.card.delivering)[0], s.log);
    if done.result.Late? || done.result.Dropped? { assert done.slot in s.log.used && done.slot !in s.log.ahead; }
  }

  lemma SlotsStepKeeps(s: State, step: Step)
    requires SlotsOk(s) && Next(s, step).Some?
    ensures SlotsOk(Next(s, step).value)
  {
    match step
    case Acquire =>
    case WriteFails =>
    case Check(answered) => CheckKeeps(s, answered);
    case HandOver(accepted) => if accepted { HandOverKeeps(s); }
    case Start => AnchorMoves(s.card, s.next, s.next, s.late, s.log, s.log.(anchor := 0, accepted := 0));
    case Boundary => BoundaryKeeps(s);
    case Pop =>
    case Deliver => DeliverKeeps(s);
    case Stop => DisableKeepsReports(s.card, s.late, s.log);
  }

  // --------------------------------------------------------------- theorems

  lemma BeginHolds(frames: nat, duration: Positive, preroll: Positive)
    ensures Inv(Begin(frames, duration, preroll))
  {
  }

  lemma StepKeeps(s: State, step: Step)
    requires Inv(s) && Next(s, step).Some?
    ensures Inv(Next(s, step).value)
  {
    FramesStepKeeps(s, step);
    SlotsStepKeeps(s, step);
  }

  lemma {:induction false} RunKeeps(s: State, steps: seq<Step>)
    requires Inv(s) && Run(s, steps).Some?
    ensures Inv(Run(s, steps).value)
    decreases |steps|
  {
    if steps != [] {
      StepKeeps(s, steps[0]);
      RunKeeps(Next(s, steps[0]).value, steps[1..]);
    }
  }

  /// On every run, every frame that was still ahead of the card when it was
  /// handed over is shown at exactly its own boundary, and those are the only
  /// ones that are: a slot overtaken first is shown late or dropped.
  lemma OnTimeIffAhead(frames: nat, duration: Positive, preroll: Positive, steps: seq<Step>, slot: nat)
    requires Run(Begin(frames, duration, preroll), steps).Some?
    ensures var s := Run(Begin(frames, duration, preroll), steps).value;
            && (slot in s.log.ahead && slot < s.card.boundaries ==>
                  slot in s.log.shown && s.log.shown[slot] == slot && slot !in s.log.dropped)
            && (slot in s.log.used && slot !in s.log.ahead ==>
                  && (slot in s.log.shown ==> s.log.shown[slot] > slot)
                  && (slot in s.log.shown || slot in s.log.dropped || Waits(s.card.queue, slot) || s.phase.Stopped?))
            && (slot in s.log.shown || slot in s.log.dropped ==> slot in s.log.used)
  {
    BeginHolds(frames, duration, preroll);
    RunKeeps(Begin(frames, duration, preroll), steps);
    var s := Run(Begin(frames, duration, preroll), steps).value;
    assert SlotOk(slot, s.card.boundaries, s.log);
  }

  /// On every run in which no boundary comes between a check the card answers
  /// and its hand-over, no frame is ever late or dropped, nor reported so.
  lemma PromptIsNeverLate(frames: nat, duration: Positive, preroll: Positive, steps: seq<Step>)
    requires Run(Begin(frames, duration, preroll), steps).Some?
    requires !Run(Begin(frames, duration, preroll), steps).value.log.slow
    ensures var s := Run(Begin(frames, duration, preroll), steps).value;
            && s.log.used == s.log.ahead && s.log.dropped == {} && !s.late
            && (forall slot :: slot in s.log.shown ==> s.log.shown[slot] == slot)
            && (forall slot: nat :: slot in s.log.used && slot < s.card.boundaries ==> slot in s.log.shown)
            && (forall i :: 0 <= i < |s.card.queue| ==> s.card.queue[i].slot >= s.card.boundaries)
  {
    BeginHolds(frames, duration, preroll);
    RunKeeps(Begin(frames, duration, preroll), steps);
    PromptState(Run(Begin(frames, duration, preroll), steps).value);
  }

  lemma PromptState(s: State)
    requires SlotsOk(s) && !s.log.slow
    ensures s.log.used == s.log.ahead && s.log.dropped == {} && !s.late
    ensures forall slot :: slot in s.log.shown ==> s.log.shown[slot] == slot
    ensures forall slot: nat :: slot in s.log.used && slot < s.card.boundaries ==> slot in s.log.shown
    ensures forall i :: 0 <= i < |s.card.queue| ==> s.card.queue[i].slot >= s.card.boundaries
  {
    forall slot: nat
      ensures (slot in s.log.used <==> slot in s.log.ahead) && slot !in s.log.dropped
      ensures slot in s.log.shown ==> s.log.shown[slot] == slot
      ensures slot in s.log.used && slot < s.card.boundaries ==> slot in s.log.shown
    {
      assert SlotOk(slot, s.card.boundaries, s.log);
    }
    forall i | 0 <= i < |s.card.queue| ensures s.card.queue[i].slot >= s.card.boundaries {
      assert WaitingOk(s.card.queue[i].slot, s.card.boundaries, s.log);
    }
  }

  /// No slot is ever scheduled twice.
  lemma SlotsAreNew(frames: nat, duration: Positive, preroll: Positive, steps: seq<Step>)
    requires Run(Begin(frames, duration, preroll), steps).Some?
    ensures var s := Run(Begin(frames, duration, preroll), steps).value;
            s.next !in s.log.used && forall slot: nat :: slot in s.log.used ==> slot < s.next
  {
    BeginHolds(frames, duration, preroll);
    RunKeeps(Begin(frames, duration, preroll), steps);
  }

  /// The card and the writer never have the same frame, no frame is with the
  /// card twice, the ring never hands out a frame that is with either, and it
  /// never refuses one that comes back.
  lemma FramesAreNeverShared(frames: nat, duration: Positive, preroll: Positive, steps: seq<Step>, f: nat)
    requires Run(Begin(frames, duration, preroll), steps).Some?
    ensures var s := Run(Begin(frames, duration, preroll), steps).value;
            && CardFrames(s.card)[f] <= 1
            && (f in WriterFrames(s.writer) ==> f !in CardFrames(s.card))
            && (Acquired(s.ring).1 == Some(f) ==> f !in CardFrames(s.card) && f !in WriterFrames(s.writer))
            && (f in CardFrames(s.card) || f in WriterFrames(s.writer) ==> Released(s.ring, f).1)
            && s.ring.doubleReleases == 0 && s.ring.strangers == 0 && s.strays == 0
  {
    BeginHolds(frames, duration, preroll);
    RunKeeps(Begin(frames, duration, preroll), steps);
    var s := Run(Begin(frames, duration, preroll), steps).value;
    AcquireBalances(s.ring, Frames(s));
    assert Frames(s)[f] == CardFrames(s.card)[f] + WriterFrames(s.writer)[f];
    if f in Frames(s) { ReleaseBalances(s.ring, Frames(s), f); }
  }

  /// Once the card has been stopped and its completions delivered, nothing is
  /// outstanding: the ring closes with every frame in it.
  lemma StopReturnsEverything(frames: nat, duration: Positive, preroll: Positive, steps: seq<Step>)
    requires Run(Begin(frames, duration, preroll), steps).Some?
    requires var s := Run(Begin(frames, duration, preroll), steps).value;
             s.phase.Stopped? && s.card.pending == [] && s.card.delivering.None?
    ensures Out(Run(Begin(frames, duration, preroll), steps).value.ring.slots) == 0
  {
    BeginHolds(frames, duration, preroll);
    RunKeeps(Begin(frames, duration, preroll), steps);
    var s := Run(Begin(frames, duration, preroll), steps).value;
    assert CardFrames(s.card) == multiset{};
    assert forall f :: 0 <= f < |s.ring.slots| ==> Frames(s)[f] == 0;
  }

  /// How many boundaries the playhead has moved since the last re-anchor, less
  /// the frames accepted since.
  function Debt(s: State): int { Playhead(s.card) - s.log.anchor - s.log.accepted }

  /// A check moves the schedule exactly when boundaries since the last
  /// re-anchor outnumber the frames accepted since by the preroll or more.
  lemma MovesIffDebt(s: State)
    requires Inv(s) && s.phase.Playing? && DoCheck(s, true).Some?
    ensures DoCheck(s, true).value.reanchors == s.reanchors + if Debt(s) >= s.preroll then 1 else 0
    ensures DoCheck(s, true).value.next == if Debt(s) >= s.preroll then Playhead(s.card) + s.preroll else s.next
  {
    CheckOnFrame(s.next, s.duration, s.preroll, Playhead(s.card), s.late);
  }

  /// No check of the run that the card answers finds that debt.
  ghost predicate KeepsUp(s: State, steps: seq<Step>)
    decreases |steps|
  {
    steps == [] || (
      && (steps[0] == Check(true) && s.phase.Playing? && s.writer.Writing? ==> Debt(s) < s.preroll)
      && (Next(s, steps[0]).Some? ==> KeepsUp(Next(s, steps[0]).value, steps[1..])))
  }

  lemma OtherStepsKeepCount(s: State, step: Step)
    requires Next(s, step).Some? && !(step == Check(true) && s.phase.Playing?)
    ensures Next(s, step).value.reanchors == s.reanchors
  {
  }

  lemma CheckCounts(s: State)
    requires s.writer.Writing? && s.phase.Playing?
    ensures s.reanchors <= DoCheck(s, true).value.reanchors
  {
  }

  lemma {:induction false} CountGrows(s: State, steps: seq<Step>)
    requires Run(s, steps).Some?
    ensures s.reanchors <= Run(s, steps).value.reanchors
    decreases |steps|
  {
    if steps != [] {
      if steps[0] == Check(true) && s.phase.Playing? { CheckCounts(s); } else { OtherStepsKeepCount(s, steps[0]); }
      CountGrows(Next(s, steps[0]).value, steps[1..]);
    }
  }

  /// One stall, one re-anchor: over any run, the schedule moves again if and
  /// only if the frames accepted fall behind the boundaries by the preroll.
  lemma {:induction false} OneStallOneReanchor(s: State, steps: seq<Step>)
    requires Inv(s) && Run(s, steps).Some?
    ensures Run(s, steps).value.reanchors == s.reanchors <==> KeepsUp(s, steps)
    decreases |steps|
  {
    if steps != [] {
      var s' := Next(s, steps[0]).value;
      StepKeeps(s, steps[0]);
      if steps[0] == Check(true) && s.phase.Playing? { MovesIffDebt(s); } else { OtherStepsKeepCount(s, steps[0]); }
      CountGrows(s', steps[1..]);
      OneStallOneReanchor(s', steps[1..]);
    }
  }

  // ------------------------------------- why the hand-over has to be prompt

  lemma {:induction false} RunAppend(s: State, xs: seq<Step>, mid: State, ys: seq<Step>)
    requires Run(s, xs) == Some(mid)
    ensures Run(s, xs + ys) == Run(mid, ys)
    decreases |xs|
  {
    if xs == [] {
      assert xs + ys == ys;
    } else {
      assert (xs + ys)[1..] == xs[1..] + ys;
      RunAppend(Next(s, xs[0]).value, xs[1..], mid, ys);
    }
  }

  lemma RunTwo(s: State, a: Step, s1: State, b: Step, s2: State)
    requires Next(s, a) == Some(s1) && Next(s1, b) == Some(s2)
    ensures Run(s, [a, b]) == Some(s2)
  {
    assert [a, b][1..] == [b] && [b][1..] == [];
    assert Run(s1, [b]) == Run(s2, []);
  }

  /// A boundary between the check and the hand-over: the frame is shown one
  /// boundary late.
  lemma SlowHandOverIsLate(s: State)
    requires Inv(s) && s.phase.Playing? && s.writer.Ready? && s.writer.seen == Some(s.card.boundaries)
    requires s.card.queue == [] && s.next == s.card.boundaries
    ensures var end := Run(s, [Boundary, HandOver(true)] + [Boundary]);
            end.Some? && s.next in end.value.log.shown && end.value.log.shown[s.next] == s.next + 1
            && end.value.card.onAir == Some(Done(s.next, s.writer.frame, Late))
  {
    var nb, e := s.card.boundaries, Entry(s.next, s.writer.frame);
    var s1 := s.(card := s.card.(boundaries := nb + 1));
    var s2 := Next(s1, HandOver(true)).value;
    assert Next(s, Boundary) == Some(s1);
    RunTwo(s, Boundary, s1, HandOver(true), s2);
    RunAppend(s, [Boundary, HandOver(true)], s2, [Boundary]);
    assert s2.card.queue == [e] && s2.card.boundaries == nb + 1;
    assert Due([e], nb + 1) == 1 by { assert [e][1..] == []; }
    assert [Boundary][1..] == [];
  }
}
