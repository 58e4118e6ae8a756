/// The lock-free audio ring between the frame clock and a sound card
/// (src/core/audio_ring.cpp): the object one call at a time, its fill level
/// over runs of whole calls, and the two threads interleaved cell by cell.
///
/// A sample-frame (all channels of one instant) is one value of any type `F`.
module AudioRing {
  import opened Basics

  // ------------------------------------------------------------- whole calls

  /// What a read does before copying: frames skipped to get back to the
  /// target, and frames then delivered.
  function Resync(buffered: nat, target: nat): (skip: nat)
    ensures skip <= buffered
    ensures target == 0 || buffered - skip <= 2 * target
  {
    if target > 0 && buffered > target * 2 then buffered - target else 0
  }

  datatype Stats = Stats(framesWritten: int, framesRead: int, underruns: int, overruns: int, resyncs: int)

  class Ring<F(0)> {
    const silence: F
    var channels: int
    var sampleRate: int
    var capacity: int
    var target: int
    var buffer: array<F>
    var write: nat
    var read: nat
    var priming: bool
    var stats: Stats
    /// Everything accepted since the last reset: position p of the
    /// free-running counters is stream[p].
    ghost var stream: seq<F>

    ghost predicate Valid()
      reads this`channels, this`target, this`capacity, this`buffer, this`read, this`write, this`stream, buffer
    {
      && 0 <= channels && 0 <= target <= Max(capacity / 2, 0)
      && buffer.Length == Max(capacity, 0)
      && read <= write == |stream|
      && write <= read + Max(capacity, 0)
      && (forall p {:trigger Cell(p, buffer.Length)} :: read <= p < write ==> buffer[Cell(p, buffer.Length)] == stream[p])
    }

    ghost function Contents(): seq<F>
      reads this, buffer
      requires Valid()
    {
      stream[read..write]
    }

    function Fill(): Level
      reads this, buffer
      requires Valid()
    {
      Level(write - read, priming)
    }

    constructor (silence: F)
      ensures Valid() && this.silence == silence && capacity == 0 && channels == 0 && fresh(buffer)
    {
      this.silence := silence;
      channels, sampleRate, capacity, target := 0, 0, 0, 0;
      buffer := new F[0];
      write, read, priming := 0, 0, true;
      stats := Stats(0, 0, 0, 0, 0);
      stream := [];
    }

    method Configure(wantedChannels: int, wantedRate: int, capacityMs: int, targetMs: int)
      modifies this
      ensures Valid() && Contents() == [] && priming && fresh(buffer)
      ensures channels == Max(wantedChannels, 0) && sampleRate == Max(wantedRate, 0)
      ensures capacity == TruncDiv(Max(wantedRate, 0) * capacityMs, 1000)
      ensures target == Min(Max(TruncDiv(Max(wantedRate, 0) * targetMs, 1000), 0), Max(TruncDiv(capacity, 2), 0))
      ensures forall i :: 0 <= i < buffer.Length ==> buffer[i] == silence
      ensures stats == old(stats)
    {
      channels, sampleRate := Max(wantedChannels, 0), Max(wantedRate, 0);
      capacity := TruncDiv(sampleRate * capacityMs, 1000);
      target := Min(Max(TruncDiv(sampleRate * targetMs, 1000), 0), Max(TruncDiv(capacity, 2), 0));
      buffer := new F[Max(capacity, 0)](i => silence);
      write, read, priming := 0, 0, true;
      stream := [];
    }

    method Reset()
      requires Valid()
      modifies this, buffer
      ensures Valid() && Contents() == [] && priming && buffer == old(buffer)
      ensures capacity == old(capacity) && target == old(target) && channels == old(channels)
      ensures forall i :: 0 <= i < buffer.Length ==> buffer[i] == silence
    {
      write, read, priming := 0, 0, true;
      stream := [];
      for i := 0 to buffer.Length
        invariant buffer == old(buffer) && capacity == old(capacity) && target == old(target) && channels == old(channels)
        invariant write == read == 0 && stream == [] && priming
        invariant forall j :: 0 <= j < i ==> buffer[j] == silence
      {
        buffer[i] := silence;
      }
    }

    /// Producer side: what fits is appended, the rest refused and counted.
    method Write(source: seq<F>, frames: int) returns (taken: int)
      requires Valid() && frames <= |source|
      modifies this, buffer
      ensures Valid() && buffer == old(buffer)
      ensures taken == if frames <= 0 || channels <= 0 || capacity <= 0 then 0
                       else Min(frames, capacity - old(write - read))
      ensures stream == old(stream) + source[..taken] && read == old(read)
      ensures Contents() == old(Contents()) + source[..taken]
      ensures Fill() == if frames <= 0 || channels <= 0 || capacity <= 0 then old(Fill())
                        else WriteLevel(old(Fill()), capacity, target, frames)
      ensures stats == old(stats).(
          framesWritten := old(stats).framesWritten + taken,
          overruns := old(stats).overruns + if taken < frames && channels > 0 && capacity > 0 then 1 else 0)
      ensures capacity == old(capacity) && target == old(target) && channels == old(channels)
    {
      if frames <= 0 || channels <= 0 || capacity <= 0 {
        return 0;
      }
      var buffered := write - read;
      var space := capacity - buffered;
      taken := Min(frames, Max(space, 0));
      if taken < frames {
        stats := stats.(overruns := stats.overruns + 1);
      }
      if taken <= 0 {
        return 0;
      }
      Accept(source[..taken]);
      stats := stats.(framesWritten := stats.framesWritten + taken);
      if priming && buffered + taken >= target {
        priming := false;
      }
    }

    /// The accepted frames are copied in, then published.
    method Accept(part: seq<F>)
      requires Valid() && 0 < capacity && |part| <= capacity - (write - read)
      modifies this`write, this`stream, buffer
      ensures Valid() && stream == old(stream) + part && write == old(write) + |part|
      ensures Contents() == old(Contents()) + part
    {
      CopyAll(part);
      stream := stream + part;
      write := write + |part|;
    }

    /// The producer's copy, at most two memcpys: to the end of the buffer, then
    /// from its start.
    method CopyAll(part: seq<F>)
      requires Valid() && 0 < capacity && |part| <= capacity - (write - read)
      modifies buffer
      ensures forall p :: write <= p < write + |part| ==> buffer[Cell(p, capacity)] == part[p - write]
      ensures forall p :: read <= p < write ==> buffer[Cell(p, capacity)] == old(buffer[Cell(p, capacity)])
    {
      var offset := write % capacity;
      CellIsMod(write, capacity);
      var first := Min(|part|, capacity - offset);
      CopyIn(offset, part[..first], write);
      if first < |part| {
        CopyWrapped(part, first);
      }
    }

    /// The second of the two, from the start of the buffer.
    method CopyWrapped(part: seq<F>, first: nat)
      requires Valid() && 0 < capacity && first < |part| <= capacity - (write - read)
      requires Cell(write, capacity) + first == capacity
      requires forall p :: write <= p < write + first ==> buffer[Cell(p, capacity)] == part[p - write]
      modifies buffer
      ensures forall p :: write <= p < write + |part| ==> buffer[Cell(p, capacity)] == part[p - write]
      ensures forall p :: read <= p < write ==> buffer[Cell(p, capacity)] == old(buffer[Cell(p, capacity)])
    {
      CellAdvances(write, first, capacity);
      CopyIn(0, part[first..], write + first);
      forall p | write <= p < write + |part| ensures buffer[Cell(p, capacity)] == part[p - write] {
        if p < write + first {
          assert read <= p < write + first;
        } else {
          assert buffer[Cell(p, capacity)] == part[first..][p - (write + first)];
        }
      }
    }

    /// One of the producer's two memcpys: positions from `position` onwards,
    /// which are `offset` onwards in the buffer.
    method CopyIn(offset: nat, part: seq<F>, ghost position: nat)
      requires 0 < capacity == buffer.Length && offset + |part| <= capacity && offset == Cell(position, capacity)
      requires read <= position && position + |part| <= read + capacity
      modifies buffer
      ensures forall p :: position <= p < position + |part| ==> buffer[Cell(p, capacity)] == part[p - position]
      ensures forall p :: read <= p < position ==> buffer[Cell(p, capacity)] == old(buffer[Cell(p, capacity)])
    {
      for i := 0 to |part|
        invariant forall c :: offset <= c < offset + i ==> buffer[c] == part[c - offset]
        invariant forall c :: 0 <= c < capacity && !(offset <= c < offset + i) ==> buffer[c] == old(buffer[c])
      {
        buffer[offset + i] := part[i];
      }
      forall p | position <= p < position + |part| ensures Cell(p, capacity) == offset + (p - position) {
        CellAdvances(position, p - position, capacity);
      }
      forall p | read <= p < position ensures !(offset <= Cell(p, capacity) < offset + |part|) {
        if offset <= Cell(p, capacity) < offset + |part| {
          CellAdvances(position, Cell(p, capacity) - offset, capacity);
          CellsDiffer(p, position + (Cell(p, capacity) - offset), capacity);
        }
      }
    }

    /// Consumer side: exactly `frames` frames are written to `dst`, silence
    /// where there is nothing to play.
    method Read(dst: array<F>, frames: int) returns (taken: int)
      requires Valid() && frames <= dst.Length && dst != buffer
      modifies this, dst
      ensures Valid() && buffer == old(buffer) && stream == old(stream) && write == old(write)
      ensures capacity == old(capacity) && target == old(target) && channels == old(channels)
      ensures frames <= 0 || channels <= 0 || capacity <= 0 ==>
          taken == 0 && dst[..] == old(dst[..]) && Fill() == old(Fill()) && stats == old(stats)
      ensures frames > 0 && channels > 0 && capacity > 0 ==>
          ReadOutcome(old(Fill()), old(read), frames, taken, dst, old(dst[..]), old(stats))
    {
      if frames <= 0 || channels <= 0 || capacity <= 0 {
        return 0;
      }
      if priming {
        Silence(dst, 0, frames);
        return 0;
      }
      taken := Play(dst, frames);
    }

    /// What a read of `frames` frames leaves, given the fill, position, output
    /// and counters before it.
    ghost predicate ReadOutcome(fill: Level, from: nat, frames: nat, taken: int, dst: array<F>, before: seq<F>, counted: Stats)
      requires Valid()
      reads this, buffer, dst
    {
      var skip, n := ReadLevel(fill, target, frames).1, ReadLevel(fill, target, frames).2;
      && Fill() == ReadLevel(fill, target, frames).0 && taken == n
      && Rendered(dst, before, from + skip, n, frames)
      && read == from + skip + n
      && stats == counted.(framesRead := counted.framesRead + n,
                           resyncs := counted.resyncs + if skip > 0 then 1 else 0,
                           underruns := counted.underruns + if !fill.priming && n < frames then 1 else 0)
    }

    /// `taken` frames of the stream from position `from`, then silence up to
    /// `frames`, then what was there.
    ghost predicate Rendered(dst: array<F>, before: seq<F>, from: nat, taken: nat, frames: nat)
      reads this`stream, dst
    {
      && taken <= frames <= dst.Length == |before| && from + taken <= |stream|
      && (forall i :: 0 <= i < taken ==> dst[i] == stream[from + i])
      && (forall i :: taken <= i < frames ==> dst[i] == silence)
      && (forall i :: frames <= i < dst.Length ==> dst[i] == before[i])
    }

    /// Too far behind: how much of the backlog is skipped, counted as a resync.
    method SkipBacklog() returns (skip: nat)
      requires Valid()
      modifies this`stats
      ensures skip == Resync(write - read, target)
      ensures stats == old(stats).(resyncs := old(stats).resyncs + if skip > 0 then 1 else 0)
    {
      skip := 0;
      var buffered := write - read;
      if target > 0 && buffered > target * 2 {
        skip := buffered - target;
        stats := stats.(resyncs := stats.resyncs + 1);
      }
    }

    /// A read once the ring is not priming.
    method Play(dst: array<F>, frames: nat) returns (taken: nat)
      requires Valid() && 0 < frames <= dst.Length && dst != buffer && !priming && 0 < capacity
      modifies this`read, this`priming, this`stats, dst
      ensures Valid() && ReadOutcome(old(Fill()), old(read), frames, taken, dst, old(dst[..]), old(stats))
    {
      var skip := SkipBacklog();
      var from := read + skip;
      taken := Min(frames, Max(write - from, 0));
      Render(dst, from, taken, frames);
      Played(from, taken, frames);
    }

    /// The counters and the cursor after a read.
    method Played(from: nat, taken: nat, frames: nat)
      requires read <= from && taken <= frames
      modifies this`read, this`priming, this`stats
      ensures read == from + taken && priming == (old(priming) || taken < frames)
      ensures stats == old(stats).(framesRead := old(stats).framesRead + taken,
                                   underruns := old(stats).underruns + if taken < frames then 1 else 0)
    {
      stats := stats.(framesRead := stats.framesRead + taken);
      if taken < frames {
        stats := stats.(underruns := stats.underruns + 1);
        priming := true;
      }
      read := from + taken;
    }

    method Render(dst: array<F>, from: nat, taken: nat, frames: nat)
      requires Valid() && dst != buffer && 0 < capacity && read <= from && from + taken <= write
      requires taken <= frames <= dst.Length
      modifies dst
      ensures Rendered(dst, old(dst[..]), from, taken, frames)
    {
      if taken > 0 {
        PlayOut(dst, from, taken);
      }
      if taken < frames {
        Silence(dst, taken, frames);
      }
    }

    /// The consumer's copy, at most two memcpys.
    method PlayOut(dst: array<F>, from: nat, count: nat)
      requires Valid() && dst != buffer && 0 < capacity && read <= from && from + count <= write && count <= dst.Length
      modifies dst
      ensures forall i :: 0 <= i < count ==> dst[i] == stream[from + i]
      ensures forall i :: count <= i < dst.Length ==> dst[i] == old(dst[i])
    {
      var offset := from % capacity;
      CellIsMod(from, capacity);
      var first := Min(count, capacity - offset);
      CopyOut(dst, 0, offset, first, from);
      if first < count {
        CellAdvances(from, first, capacity);
        CopyOut(dst, first, 0, count - first, from + first);
      }
    }

    /// One of the consumer's two memcpys.
    method CopyOut(dst: array<F>, at: nat, offset: nat, count: nat, ghost position: nat)
      requires Valid() && dst != buffer && 0 < capacity && offset + count <= capacity && offset == Cell(position, capacity)
      requires read <= position && position + count <= write && at + count <= dst.Length
      modifies dst
      ensures forall i :: at <= i < at + count ==> dst[i] == stream[position + i - at]
      ensures forall i :: 0 <= i < dst.Length && !(at <= i < at + count) ==> dst[i] == old(dst[i])
    {
      for i := 0 to count
        invariant forall j :: at <= j < at + i ==> dst[j] == stream[position + j - at]
        invariant forall j :: 0 <= j < dst.Length && !(at <= j < at + i) ==> dst[j] == old(dst[j])
      {
        CellAdvances(position, i, capacity);
        dst[at + i] := buffer[offset + i];
      }
    }

    method Silence(dst: array<F>, from: nat, to: nat)
      requires from <= to <= dst.Length
      modifies dst
      ensures forall i :: from <= i < to ==> dst[i] == silence
      ensures forall i :: 0 <= i < dst.Length && !(from <= i < to) ==> dst[i] == old(dst[i])
    {
      for i := from to to
        invariant forall j :: from <= j < i ==> dst[j] == silence
        invariant forall j :: 0 <= j < dst.Length && !(from <= j < i) ==> dst[j] == old(dst[j])
      {
        dst[i] := silence;
      }
    }
  }

  // --------------------------------------------------- the fill level in runs

  /// How full the ring is, and whether it is emitting silence until it fills.
  datatype Level = Level(buffered: nat, priming: bool)

  function WriteLevel(l: Level, capacity: nat, target: nat, frames: nat): Level
    requires l.buffered <= capacity
  {
    var taken := Min(frames, capacity - l.buffered);
    if taken == 0 then l
    else Level(l.buffered + taken, l.priming && l.buffered + taken < target)
  }

  /// The level after a read, the frames it skipped and the frames it delivered.
  function ReadLevel(l: Level, target: nat, frames: nat): (Level, nat, nat) {
    if l.priming then (l, 0, 0)
    else
      var skip := Resync(l.buffered, target);
      var taken := Min(frames, l.buffered - skip);
      (Level(l.buffered - skip - taken, taken < frames), skip, taken)
  }

  datatype Call = WriteCall(frames: nat) | ReadCall(frames: nat)

  function After(l: Level, capacity: nat, target: nat, calls: seq<Call>): (r: Level)
    requires l.buffered <= capacity && target <= capacity
    ensures r.buffered <= capacity
    decreases |calls|
  {
    if calls == [] then l
    else
      var next := match calls[0]
                  case WriteCall(n) => WriteLevel(l, capacity, target, n)
                  case ReadCall(n) => if n == 0 then l else ReadLevel(l, target, n).0;
      After(next, capacity, target, calls[1..])
  }

  predicate LevelOk(l: Level, target: nat) { l.priming ==> l.buffered < target || l.buffered == 0 }

  /// With whole calls as steps, a ring that is priming holds less than its
  /// target or nothing, so a write always has room.
  lemma {:induction false} PrimingHasRoom(l: Level, capacity: nat, target: nat, calls: seq<Call>)
    requires 0 < capacity && target <= capacity / 2 && l.buffered <= capacity && LevelOk(l, target)
    ensures LevelOk(After(l, capacity, target, calls), target)
    ensures After(l, capacity, target, calls).priming ==> After(l, capacity, target, calls).buffered < capacity
    decreases |calls|
  {
    if calls != [] {
      var next := match calls[0]
                  case WriteCall(n) => WriteLevel(l, capacity, target, n)
                  case ReadCall(n) => if n == 0 then l else ReadLevel(l, target, n).0;
      PrimingHasRoom(next, capacity, target, calls[1..]);
    }
  }

  function Sum(frames: seq<nat>): nat { if frames == [] then 0 else frames[0] + Sum(frames[1..]) }

  function Writes(frames: seq<nat>): seq<Call> { seq(|frames|, i requires 0 <= i < |frames| => WriteCall(frames[i])) }

  /// Silence ends: unless the ring is full, writes alone end the priming
  /// exactly when they have brought it to its target.
  lemma {:induction false} SilenceEnds(l: Level, capacity: nat, target: nat, frames: seq<nat>)
    requires target <= capacity / 2 && l.buffered < capacity && l.priming
    requires frames != [] && forall i :: 0 <= i < |frames| ==> frames[i] > 0
    ensures After(l, capacity, target, Writes(frames)).priming <==> l.buffered + Sum(frames) < target
    decreases |frames|
  {
    var next := WriteLevel(l, capacity, target, frames[0]);
    assert Writes(frames)[0] == WriteCall(frames[0]);
    assert Writes(frames)[1..] == Writes(frames[1..]);
    if |frames| == 1 {
      assert Writes(frames[1..]) == [] && Sum(frames[1..]) == 0;
    } else if next.priming {
      SilenceEnds(next, capacity, target, frames[1..]);
    } else {
      StaysAwake(next, capacity, target, frames[1..]);
    }
  }

  lemma {:induction false} StaysAwake(l: Level, capacity: nat, target: nat, frames: seq<nat>)
    requires l.buffered <= capacity && target <= capacity && !l.priming
    ensures !After(l, capacity, target, Writes(frames)).priming
    decreases |frames|
  {
    if frames != [] {
      assert Writes(frames)[0] == WriteCall(frames[0]);
      assert Writes(frames)[1..] == Writes(frames[1..]);
      StaysAwake(WriteLevel(l, capacity, target, frames[0]), capacity, target, frames[1..]);
    }
  }

  /// A ring that is full and still priming never plays again.
  lemma {:induction false} FullAndPrimingIsForever(capacity: nat, target: nat, calls: seq<Call>)
    requires 0 < capacity && target <= capacity / 2
    ensures After(Level(capacity, true), capacity, target, calls) == Level(capacity, true)
    decreases |calls|
  {
    if calls != [] { FullAndPrimingIsForever(capacity, target, calls[1..]); }
  }
}
